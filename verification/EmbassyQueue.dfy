/**
 The ready queue of the Embassy executor: any number of submitters send a task and then
 set a signal, and one driver waits for the signal and drains the queue in turns.
 */
module EmbassyQueue {
  import opened Options

  type Task(!new, ==)

  const MAX_TASKS_PER_TURN: nat := 64

  datatype SubmitResult = Accepted | Rejected | ShutDown

  // ---------- one thread at a time ----------

  class EmbassyExecutor {
    const capacity: nat
    var queue: seq<Task>
    var signal: bool
    var accepting: bool
    var executed: seq<Task>

    constructor (capacity: nat)
      ensures this.capacity == capacity && queue == [] && !signal && accepting && executed == []
    {
      this.capacity := capacity;
      queue, signal, accepting, executed := [], false, true, [];
    }

    method Execute(task: Task) returns (r: SubmitResult)
      modifies this`queue, this`signal
      ensures r == if !accepting then ShutDown else if |old(queue)| >= capacity then Rejected else Accepted
      ensures queue == (if r.Accepted? then old(queue) + [task] else old(queue)) && signal == (old(signal) || r.Accepted?)
    {
      if !accepting {
        return ShutDown;
      }
      if |queue| >= capacity {
        return Rejected;
      }
      queue := queue + [task];
      signal := true;
      return Accepted;
    }

    method Shutdown()
      modifies this`accepting, this`signal
      ensures !accepting && signal
    {
      accepting, signal := false, true;
    }

    method PopReady() returns (task: Option<Task>)
      modifies this`queue
      ensures task == if old(queue) == [] then None else Some(old(queue)[0])
      ensures queue == if old(queue) == [] then [] else old(queue)[1..]
    {
      if queue == [] {
        return None;
      }
      task, queue := Some(queue[0]), queue[1..];
    }

    method DrainReadyWithLimit(limit: nat) returns (drained: nat)
      modifies this`queue, this`executed
      ensures drained == if limit <= |old(queue)| then limit else |old(queue)|
      ensures executed == old(executed) + old(queue)[..drained] && queue == old(queue)[drained..]
    {
      drained := 0;
      while drained < limit
        invariant drained <= |old(queue)| && drained <= limit
        invariant executed == old(executed) + old(queue)[..drained] && queue == old(queue)[drained..]
      {
        var task := PopReady();
        if task.None? {
          break;
        }
        executed := executed + [task.value];
        drained := drained + 1;
      }
    }

    /** One turn after the signal was waited for; a full turn asks for another. */
    method RunOnce() returns (drained: nat)
      requires signal
      modifies this`queue, this`executed, this`signal
      ensures drained == if MAX_TASKS_PER_TURN <= |old(queue)| then MAX_TASKS_PER_TURN else |old(queue)|
      ensures executed == old(executed) + old(queue)[..drained] && queue == old(queue)[drained..]
      ensures queue != [] ==> signal
    {
      signal := false;
      drained := DrainReadyWithLimit(MAX_TASKS_PER_TURN);
      if drained == MAX_TASKS_PER_TURN {
        signal := true;
      }
    }
  }

  // ---------- interleaved with submitters ----------

  datatype Driver = Parked | Draining(drained: nat) | Running(task: Task, drained: nat)

  /**
   `admitted` counts the submitters between their look at `accepting` and their send, and
   `signalling` those between their send and their signal; `accepted` and `executed`
   record the tasks taken into the queue and those that have run.
   */
  datatype State = State(
    capacity: nat,
    accepting: bool,
    admitted: nat,
    queue: seq<Task>,
    signal: bool,
    signalling: nat,
    driver: Driver,
    accepted: seq<Task>,
    executed: seq<Task>)

  datatype Step = Admit | Submit(task: Task) | SetSignal | Stop | Wake | Pop | Run | EndFullTurn

  predicate Enabled(s: State, step: Step) {
    match step
    case Admit => s.accepting
    case Submit(_) => s.admitted > 0
    case SetSignal => s.signalling > 0
    case Stop => true
    case Wake => s.driver.Parked? && s.signal
    case Pop => s.driver.Draining? && s.driver.drained < MAX_TASKS_PER_TURN
    case Run => s.driver.Running?
    case EndFullTurn => s.driver.Draining? && s.driver.drained >= MAX_TASKS_PER_TURN
  }

  function Next(s: State, step: Step): State
    requires Enabled(s, step)
  {
    match step
    case Admit => s.(admitted := s.admitted + 1)
    case Submit(task) =>
      var t := s.(admitted := s.admitted - 1);
      if |s.queue| >= s.capacity then t
      else t.(queue := s.queue + [task], accepted := s.accepted + [task], signalling := s.signalling + 1)
    case SetSignal => s.(signal := true, signalling := s.signalling - 1)
    case Stop => s.(accepting := false, signal := true)
    case Wake => s.(signal := false, driver := Draining(0))
    case Pop =>
      if s.queue == [] then s.(driver := Parked)
      else s.(queue := s.queue[1..], driver := Running(s.queue[0], s.driver.drained))
    case Run => s.(executed := s.executed + [s.driver.task], driver := Draining(s.driver.drained + 1))
    case EndFullTurn => s.(signal := true, driver := Parked)
  }

  function Initial(capacity: nat): State {
    State(capacity, true, 0, [], false, 0, Parked, [], [])
  }

  ghost predicate IsRun(capacity: nat, states: seq<State>, steps: seq<Step>) {
    && |states| == |steps| + 1
    && states[0] == Initial(capacity)
    && forall i {:trigger steps[i]} :: 0 <= i < |steps| ==> Enabled(states[i], steps[i]) && states[i + 1] == Next(states[i], steps[i])
  }

  function InHand(d: Driver): seq<Task> {
    if d.Running? then [d.task] else []
  }

  ghost predicate Invariant(s: State) {
    && s.executed + InHand(s.driver) + s.queue == s.accepted
    && |s.queue| <= s.capacity
    && (s.driver.Draining? ==> s.driver.drained <= MAX_TASKS_PER_TURN)
    && (s.driver.Running? ==> s.driver.drained < MAX_TASKS_PER_TURN)
    && (s.driver.Parked? && s.queue != [] ==> s.signal || s.signalling > 0)
  }

  lemma StepKeeps(s: State, step: Step)
    requires Invariant(s) && Enabled(s, step)
    ensures Invariant(Next(s, step))
  {
    match step {
      case Pop =>
        if s.queue != [] {
          assert s.executed + [] + s.queue == s.executed + [s.queue[0]] + s.queue[1..];
        }
      case Run => assert s.executed + [s.driver.task] + [] == s.executed + [s.driver.task];
      case _ =>
    }
  }

  lemma {:induction false} RunInvariant(capacity: nat, states: seq<State>, steps: seq<Step>, i: nat)
    requires IsRun(capacity, states, steps) && i < |states|
    ensures Invariant(states[i])
  {
    if i > 0 {
      RunInvariant(capacity, states, steps, i - 1);
      StepKeeps(states[i - 1], steps[i - 1]);
    }
  }

  /** A parked driver with the signal clear has nothing to do once every submitter has signalled. */
  lemma ParkedMeansEmpty(capacity: nat, states: seq<State>, steps: seq<Step>, i: nat)
    requires IsRun(capacity, states, steps) && i < |states|
    requires states[i].driver.Parked? && !states[i].signal && states[i].signalling == 0
    ensures states[i].queue == [] && states[i].executed == states[i].accepted
  {
    RunInvariant(capacity, states, steps, i);
    assert states[i].executed + [] + [] == states[i].executed;
  }

  /** Tasks run in the order they were accepted, each once; at most one is in hand. */
  lemma RunInOrder(capacity: nat, states: seq<State>, steps: seq<Step>, i: nat)
    requires IsRun(capacity, states, steps) && i < |states|
    ensures states[i].executed <= states[i].accepted
    ensures states[i].accepted == states[i].executed + InHand(states[i].driver) + states[i].queue
  {
    RunInvariant(capacity, states, steps, i);
    var s := states[i];
    assert s.accepted == s.executed + (InHand(s.driver) + s.queue);
  }

  /** The tasks sent while there was room, in order. */
  ghost function SentWithRoom(capacity: nat, states: seq<State>, steps: seq<Step>, i: nat): seq<Task>
    requires i <= |steps| && |steps| < |states|
  {
    if i == 0 then []
    else if steps[i - 1].Submit? && |states[i - 1].queue| < capacity
    then SentWithRoom(capacity, states, steps, i - 1) + [steps[i - 1].task]
    else SentWithRoom(capacity, states, steps, i - 1)
  }

  /** Over every run a task is accepted exactly when it is sent while the queue has room, and each of those runs. */
  lemma {:induction false} AcceptedExactly(capacity: nat, states: seq<State>, steps: seq<Step>, i: nat)
    requires IsRun(capacity, states, steps) && i < |states|
    ensures states[i].capacity == capacity && states[i].accepted == SentWithRoom(capacity, states, steps, i)
    ensures |states[i].queue| <= capacity
  {
    RunInvariant(capacity, states, steps, i);
    if i > 0 {
      AcceptedExactly(capacity, states, steps, i - 1);
      assert Enabled(states[i - 1], steps[i - 1]) && states[i] == Next(states[i - 1], steps[i - 1]);
    }
  }

  /** After a shutdown no submitter is admitted, so only those admitted before it can still send. */
  lemma {:induction false} ShutdownIsFinal(capacity: nat, states: seq<State>, steps: seq<Step>, k: nat, i: nat)
    requires IsRun(capacity, states, steps) && k <= i < |states| && !states[k].accepting
    ensures !states[i].accepting
    ensures |states[i].accepted| + states[i].admitted <= |states[k].accepted| + states[k].admitted
    ensures states[k].accepted <= states[i].accepted
  {
    if k < i {
      ShutdownIsFinal(capacity, states, steps, k, i - 1);
      assert Enabled(states[i - 1], steps[i - 1]) && states[i] == Next(states[i - 1], steps[i - 1]);
    }
  }

  /** The number of tasks run since the driver last woke. */
  ghost function TurnLength(steps: seq<Step>): nat {
    if steps == [] || steps[|steps| - 1].Wake? then 0
    else TurnLength(steps[..|steps| - 1]) + if steps[|steps| - 1].Run? then 1 else 0
  }

  lemma {:induction false} TurnCounted(capacity: nat, states: seq<State>, steps: seq<Step>)
    requires IsRun(capacity, states, steps)
    ensures TurnLength(steps) <= MAX_TASKS_PER_TURN
    ensures !states[|steps|].driver.Parked? ==> TurnLength(steps) == states[|steps|].driver.drained
  {
    if steps != [] {
      var n := |steps| - 1;
      assert IsRun(capacity, states[..n + 1], steps[..n]);
      TurnCounted(capacity, states[..n + 1], steps[..n]);
      RunInvariant(capacity, states, steps, n);
      assert states[n + 1] == Next(states[n], steps[n]);
    }
  }
}
