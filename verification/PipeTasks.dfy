/**
 Futures piped to an actor. Each lock section of the cell is one step, and any number of
 threads may be between two of them: no wake-up is lost, no task is in two places
 and no result is delivered twice.
 */
module PipeTasks {
  import opened Options
  import opened Lists

  type Id = nat

  const COUNTER_MAX: nat := 0xFFFF_FFFF_FFFF_FFFF

  /** The vectors the cell keeps under its lock. */
  datatype Tasks = Tasks(parked: seq<Id>, polling: seq<Id>, wakes: seq<Id>, counter: nat)

  function Retained(s: seq<Id>, id: Id): seq<Id> {
    if s == [] then []
    else if s[|s| - 1] == id then Retained(s[..|s| - 1], id)
    else Retained(s[..|s| - 1], id) + [s[|s| - 1]]
  }

  function Added(s: seq<Id>, id: Id): seq<Id> {
    if id in s then s else s + [id]
  }

  // ---------- the lock sections ----------

  /** The counter wraps around. */
  function NextId(counter: nat): Id {
    if counter >= COUNTER_MAX then 0 else counter + 1
  }

  ghost function Spawned(t: Tasks): Tasks {
    t.(counter := NextId(t.counter), parked := t.parked + [NextId(t.counter)])
  }

  /** The order of the tasks left after a `swap_remove` is of no account. */
  ghost predicate TakenForPoll(t: Tasks, id: Id, u: Tasks) {
    if id in t.parked then
      && multiset(u.parked) == multiset(t.parked) - multiset{id}
      && u.polling == Added(t.polling, id) && u.wakes == t.wakes && u.counter == t.counter
    else
      u == t.(wakes := if id in t.polling then Added(t.wakes, id) else t.wakes)
  }

  ghost function PollFinished(t: Tasks, id: Id, pending: bool): Tasks {
    t.(polling := Retained(t.polling, id), wakes := Retained(t.wakes, id), parked := if pending then t.parked + [id] else t.parked)
  }

  class PipeTaskTable {
    var parked: seq<Id>
    var polling: seq<Id>
    var wakes: seq<Id>
    var counter: nat
    var terminated: bool

    function Look(): Tasks
      reads this
    {
      Tasks(parked, polling, wakes, counter)
    }

    constructor ()
      ensures Look() == Tasks([], [], [], 0) && !terminated
    {
      parked, polling, wakes, counter, terminated := [], [], [], 0, false;
    }

    method Spawn() returns (id: Option<Id>)
      modifies this`counter, this`parked
      ensures id == if terminated then None else Some(NextId(old(counter)))
      ensures Look() == if terminated then old(Look()) else Spawned(old(Look()))
    {
      if terminated {
        return None;
      }
      counter := NextId(counter);
      parked := parked + [counter];
      return Some(counter);
    }

    method TakeForPoll(id: Id) returns (taken: bool)
      modifies this`parked, this`polling, this`wakes
      ensures taken <==> id in old(parked)
      ensures TakenForPoll(old(Look()), id, Look())
    {
      var index := Position(parked, id);
      if index.None? {
        if id in polling && id !in wakes {
          wakes := wakes + [id];
        }
        return false;
      }
      if id !in polling {
        polling := polling + [id];
      }
      SwapRemoveKeeps(parked, index.value);
      parked := SwapRemove(parked, index.value);
      return true;
    }

    method FinishPoll(id: Id, pending: bool) returns (repoll: bool)
      modifies this`parked, this`polling, this`wakes
      ensures repoll <==> id in old(wakes)
      ensures Look() == PollFinished(old(Look()), id, pending)
    {
      polling := Retain(polling, id);
      repoll := id in wakes;
      wakes := Retain(wakes, id);
      if pending {
        parked := parked + [id];
      }
    }
  }

  method Position(s: seq<Id>, id: Id) returns (index: Option<nat>)
    ensures index.None? ==> id !in s
    ensures index.Some? ==> index.value < |s| && s[index.value] == id && id !in s[..index.value]
  {
    for i := 0 to |s|
      invariant id !in s[..i]
    {
      if s[i] == id {
        return Some(i);
      }
      assert s[..i + 1] == s[..i] + [s[i]];
    }
    assert s[..|s|] == s;
    return None;
  }

  method Retain(s: seq<Id>, id: Id) returns (r: seq<Id>)
    ensures r == Retained(s, id)
  {
    r := [];
    for i := 0 to |s|
      invariant r == Retained(s[..i], id)
    {
      assert s[..i + 1][..i] == s[..i];
      if s[i] != id {
        r := r + [s[i]];
      }
    }
    assert s[..|s|] == s;
  }

  lemma {:induction false} RetainedKeeps(s: seq<Id>, id: Id, x: Id)
    ensures x in Retained(s, id) <==> x in s && x != id
  {
    if s != [] {
      RetainedKeeps(s[..|s| - 1], id, x);
      assert s == s[..|s| - 1] + [s[|s| - 1]];
    }
  }

  // ---------- threads between lock sections ----------

  /**
   `queued` holds the PipeTask system messages. Threads about to look a task up, holding
   one for a poll, about to send a repoll or about to deliver are counted by task.
   `awake` holds the tasks spawned or woken since their last poll began.
   */
  datatype State = State(
    tasks: Tasks,
    queued: seq<Id>,
    looking: multiset<Id>,
    holding: multiset<Id>,
    repolling: multiset<Id>,
    delivering: multiset<Id>,
    delivered: multiset<Id>,
    awake: set<Id>)

  datatype PollResult = Pending | Completed | Message

  datatype Step =
    | Spawn
    | Wake(id: Id)
    | Receive
    | Take(id: Id, after: Tasks)
    | Finish(id: Id, result: PollResult)
    | SendRepoll(id: Id)
    | Deliver(id: Id)

  /** Runs end before the counter wraps around and ids repeat. */
  ghost predicate Enabled(s: State, step: Step) {
    match step
    case Spawn => s.tasks.counter < COUNTER_MAX
    case Wake(id) => true
    case Receive => s.queued != []
    case Take(id, after) => id in s.looking && TakenForPoll(s.tasks, id, after)
    case Finish(id, _) => id in s.holding
    case SendRepoll(id) => id in s.repolling
    case Deliver(id) => id in s.delivering
  }

  ghost function Next(s: State, step: Step): State
    requires Enabled(s, step)
  {
    match step
    case Spawn =>
      var id := NextId(s.tasks.counter);
      s.(tasks := Spawned(s.tasks), looking := s.looking + multiset{id}, awake := s.awake + {id})
    case Wake(id) => s.(queued := s.queued + [id], awake := s.awake + {id})
    case Receive => s.(queued := s.queued[1..], looking := s.looking + multiset{s.queued[0]})
    case Take(id, after) =>
      var t := s.(tasks := after, looking := s.looking - multiset{id});
      if id in s.tasks.parked then t.(holding := s.holding + multiset{id}, awake := s.awake - {id}) else t
    case Finish(id, result) =>
      var t := s.(tasks := PollFinished(s.tasks, id, result.Pending?), holding := s.holding - multiset{id});
      if result.Message? then t.(delivering := s.delivering + multiset{id})
      else if result.Pending? && id in s.tasks.wakes then t.(repolling := s.repolling + multiset{id})
      else t
    case SendRepoll(id) => s.(repolling := s.repolling - multiset{id}, queued := s.queued + [id])
    case Deliver(id) => s.(delivering := s.delivering - multiset{id}, delivered := s.delivered + multiset{id})
  }

  const IDLE: State :=
    State(Tasks([], [], [], 0), [], multiset{}, multiset{}, multiset{}, multiset{}, multiset{}, {})

  ghost predicate IsRun(states: seq<State>, steps: seq<Step>) {
    && |states| == |steps| + 1
    && states[0] == IDLE
    && forall i {:trigger steps[i]} :: 0 <= i < |steps| ==> Enabled(states[i], steps[i]) && states[i + 1] == Next(states[i], steps[i])
  }

  // ---------- the invariant ----------

  predicate Live(s: State, id: Id) {
    id in s.tasks.parked || id in s.tasks.polling
  }

  /** A poll that begins later is on its way. */
  predicate WillBePolled(s: State, id: Id) {
    id in s.queued || id in s.looking || id in s.repolling || id in s.tasks.wakes
  }

  /** How often a task is parked, held for a poll, finished with a message or delivered. */
  ghost function Places(s: State, id: Id): nat {
    multiset(s.tasks.parked)[id] + s.holding[id] + s.delivering[id] + s.delivered[id]
  }

  ghost predicate Fine(s: State, id: Id) {
    && Places(s, id) <= 1
    && (Places(s, id) > 0 ==> 0 < id <= s.tasks.counter)
    && s.holding[id] == multiset(s.tasks.polling)[id]
    && (id in s.tasks.wakes ==> id in s.tasks.polling)
    && (id in s.awake && Live(s, id) ==> WillBePolled(s, id))
  }

  ghost predicate Invariant(s: State) {
    forall id {:trigger Fine(s, id)} :: Fine(s, id)
  }

  lemma DistinctByCount(s: seq<Id>)
    requires forall id :: multiset(s)[id] <= 1
    ensures Distinct(s)
  {
    forall i, j | 0 <= i < j < |s| ensures s[i] != s[j] {
      assert s == s[..j] + s[j..];
      assert s[j] == s[j..][0] && multiset(s[j..])[s[j]] >= 1;
      assert multiset(s)[s[j]] == multiset(s[..j])[s[j]] + multiset(s[j..])[s[j]];
      assert s[j] !in s[..j] && s[i] == s[..j][i];
    }
  }

  lemma {:induction false} RetainedCount(s: seq<Id>, id: Id, x: Id)
    ensures multiset(Retained(s, id))[x] == if x == id then 0 else multiset(s)[x]
  {
    if s != [] {
      RetainedCount(s[..|s| - 1], id, x);
      assert s == s[..|s| - 1] + [s[|s| - 1]];
    }
  }

  lemma AppendCount(s: seq<Id>, id: Id, x: Id)
    ensures multiset(s + [id])[x] == multiset(s)[x] + if x == id then 1 else 0
  {
  }

  lemma SpawnFine(s: State, x: Id)
    requires Invariant(s) && Enabled(s, Spawn)
    ensures Fine(Next(s, Spawn), x)
  {
    assert Fine(s, x);
    AppendCount(s.tasks.parked, s.tasks.counter + 1, x);
  }

  lemma TakeFine(s: State, id: Id, after: Tasks, x: Id)
    requires Invariant(s) && Enabled(s, Take(id, after))
    ensures Fine(Next(s, Take(id, after)), x)
  {
    assert Fine(s, x) && Fine(s, id);
    if id in s.tasks.parked {
      assert multiset(s.tasks.parked)[id] > 0;
      assert id !in s.tasks.polling;
      AppendCount(s.tasks.polling, id, x);
      assert x in after.parked <==> multiset(after.parked)[x] > 0;
      assert x in s.tasks.parked <==> multiset(s.tasks.parked)[x] > 0;
    }
  }

  lemma FinishFine(s: State, id: Id, result: PollResult, x: Id)
    requires Invariant(s) && Enabled(s, Finish(id, result))
    ensures Fine(Next(s, Finish(id, result)), x)
  {
    assert Fine(s, x) && Fine(s, id);
    RetainedKeeps(s.tasks.polling, id, x);
    RetainedKeeps(s.tasks.wakes, id, x);
    RetainedCount(s.tasks.polling, id, x);
    AppendCount(s.tasks.parked, id, x);
    assert x in s.tasks.parked <==> multiset(s.tasks.parked)[x] > 0;
  }

  lemma ReceiveFine(s: State, x: Id)
    requires Invariant(s) && Enabled(s, Receive)
    ensures Fine(Next(s, Receive), x)
  {
    assert Fine(s, x);
    assert s.queued == [s.queued[0]] + s.queued[1..];
  }

  lemma StepFine(s: State, step: Step, x: Id)
    requires Invariant(s) && Enabled(s, step)
    ensures Fine(Next(s, step), x)
  {
    assert Fine(s, x);
    match step {
      case Spawn => SpawnFine(s, x);
      case Take(id, after) => TakeFine(s, id, after, x);
      case Finish(id, result) => FinishFine(s, id, result, x);
      case Receive => ReceiveFine(s, x);
      case _ =>
    }
  }

  lemma StepKeeps(s: State, step: Step)
    requires Invariant(s) && Enabled(s, step)
    ensures Invariant(Next(s, step))
  {
    forall x ensures Fine(Next(s, step), x) {
      StepFine(s, step, x);
    }
  }

  lemma {:induction false} RunInvariant(states: seq<State>, steps: seq<Step>, i: nat)
    requires IsRun(states, steps) && i < |states|
    ensures Invariant(states[i])
  {
    if i == 0 {
      forall x ensures Fine(IDLE, x) {
      }
    } else {
      RunInvariant(states, steps, i - 1);
      StepKeeps(states[i - 1], steps[i - 1]);
    }
  }

  /** A task woken since its last poll began still has a poll coming, in every state of every run. */
  lemma NoLostWake(states: seq<State>, steps: seq<Step>, i: nat, id: Id)
    requires IsRun(states, steps) && i < |states| && id in states[i].awake && Live(states[i], id)
    ensures WillBePolled(states[i], id)
  {
    RunInvariant(states, steps, i);
    assert Fine(states[i], id);
  }

  /** Once the queue is drained and every thread is done, each task has been polled after its last wake. */
  lemma QuietMeansPolled(states: seq<State>, steps: seq<Step>, i: nat, id: Id)
    requires IsRun(states, steps) && i < |states| && Live(states[i], id)
    requires var s := states[i];
             s.queued == [] && s.looking == multiset{} && s.holding == multiset{} && s.repolling == multiset{}
    ensures id !in states[i].awake
  {
    RunInvariant(states, steps, i);
    assert Fine(states[i], id);
    assert id in states[i].tasks.polling <==> multiset(states[i].tasks.polling)[id] > 0;
  }

  /** A live task is in exactly one of parked and polling, once, and one thread holds a polled task. */
  lemma LiveInOnePlace(states: seq<State>, steps: seq<Step>, i: nat, id: Id)
    requires IsRun(states, steps) && i < |states|
    ensures var s := states[i];
            && Distinct(s.tasks.parked) && Distinct(s.tasks.polling)
            && !(id in s.tasks.parked && id in s.tasks.polling)
            && s.holding[id] == (if id in s.tasks.polling then 1 else 0)
  {
    RunInvariant(states, steps, i);
    var s := states[i];
    forall x ensures multiset(s.tasks.parked)[x] <= 1 && multiset(s.tasks.polling)[x] <= 1 {
      assert Fine(s, x);
    }
    DistinctByCount(s.tasks.parked);
    DistinctByCount(s.tasks.polling);
    assert Fine(s, id);
    assert id in s.tasks.parked <==> multiset(s.tasks.parked)[id] > 0;
    assert id in s.tasks.polling <==> multiset(s.tasks.polling)[id] > 0;
  }

  /** A result is delivered at most once, and then the task is gone. */
  lemma DeliveredOnce(states: seq<State>, steps: seq<Step>, i: nat, id: Id)
    requires IsRun(states, steps) && i < |states|
    ensures states[i].delivered[id] <= 1
    ensures id in states[i].delivered ==> !Live(states[i], id) && id !in states[i].delivering
  {
    RunInvariant(states, steps, i);
    var s := states[i];
    assert Fine(s, id);
    assert id in s.tasks.parked <==> multiset(s.tasks.parked)[id] > 0;
    assert id in s.tasks.polling <==> multiset(s.tasks.polling)[id] > 0;
  }

  /** How often the polls of `id` ended with a message before step `i`. */
  ghost function Finished(steps: seq<Step>, i: nat, id: Id): nat
    requires i <= |steps|
  {
    if i == 0 then 0 else Finished(steps, i - 1, id) + if steps[i - 1] == Finish(id, Message) then 1 else 0
  }

  lemma NextResults(s: State, step: Step, id: Id)
    requires Enabled(s, step)
    ensures var t := Next(s, step);
            t.delivering[id] + t.delivered[id] == s.delivering[id] + s.delivered[id] + if step == Finish(id, Message) then 1 else 0
  {
  }

  /** Every finished result is on its way or delivered, in every state of every run. */
  lemma {:induction false} ResultsConserved(states: seq<State>, steps: seq<Step>, i: nat, id: Id)
    requires IsRun(states, steps) && i < |states|
    ensures states[i].delivering[id] + states[i].delivered[id] == Finished(steps, i, id)
  {
    if i > 0 {
      ResultsConserved(states, steps, i - 1, id);
      NextResults(states[i - 1], steps[i - 1], id);
    }
  }

  /** So when no thread is about to deliver, each has been delivered exactly once. */
  lemma EachResultDelivered(states: seq<State>, steps: seq<Step>, i: nat, id: Id)
    requires IsRun(states, steps) && i < |states| && states[i].delivering == multiset{}
    ensures states[i].delivered[id] == Finished(steps, i, id) <= 1
  {
    ResultsConserved(states, steps, i, id);
    DeliveredOnce(states, steps, i, id);
  }

  /** Step `k` begins a poll of `id`. */
  ghost predicate BeginsPoll(states: seq<State>, steps: seq<Step>, k: nat, id: Id) {
    k < |steps| && k < |states| && steps[k].Take? && steps[k].id == id && id in states[k].tasks.parked
  }

  /** Step `k` wakes `id`: by its waker, or because it is spawned. */
  ghost predicate Wakes(states: seq<State>, steps: seq<Step>, k: nat, id: Id) {
    k < |steps| && k < |states| && (steps[k] == Wake(id) || (steps[k].Spawn? && NextId(states[k].tasks.counter) == id))
  }

  lemma {:induction false} StaysAwake(states: seq<State>, steps: seq<Step>, j: nat, i: nat, id: Id)
    requires IsRun(states, steps) && j < i < |states| && Wakes(states, steps, j, id)
    requires forall k :: j < k < i ==> !BeginsPoll(states, steps, k, id)
    ensures id in states[i].awake
  {
    assert Enabled(states[i - 1], steps[i - 1]) && states[i] == Next(states[i - 1], steps[i - 1]);
    if j < i - 1 {
      StaysAwake(states, steps, j, i - 1, id);
      assert !BeginsPoll(states, steps, i - 1, id);
    }
  }

  /**
   Over every run, told by its steps alone: once the queue is drained and every thread is done,
   a task that still lives has begun a poll after each of its wakes.
   */
  lemma PolledAfterWake(states: seq<State>, steps: seq<Step>, j: nat, i: nat, id: Id)
    requires IsRun(states, steps) && j < i < |states| && Wakes(states, steps, j, id) && Live(states[i], id)
    requires var s := states[i];
             s.queued == [] && s.looking == multiset{} && s.holding == multiset{} && s.repolling == multiset{}
    ensures exists k :: j < k < i && BeginsPoll(states, steps, k, id)
  {
    if forall k :: j < k < i ==> !BeginsPoll(states, steps, k, id) {
      StaysAwake(states, steps, j, i, id);
      QuietMeansPolled(states, steps, i, id);
    }
  }

  /** A wake handled while its task is polled is remembered. */
  lemma WakeRemembered(s: State, id: Id, after: Tasks)
    requires Invariant(s) && Enabled(s, Take(id, after)) && id in s.tasks.polling
    ensures id in Next(s, Take(id, after)).tasks.wakes
  {
    assert Fine(s, id);
    assert id in s.tasks.parked <==> multiset(s.tasks.parked)[id] > 0;
    assert id in s.tasks.polling <==> multiset(s.tasks.polling)[id] > 0;
  }

  /** The end of that poll sends a repoll for the parked task, unless the task is done. */
  lemma WakeAnswered(s: State, id: Id, result: PollResult)
    requires Invariant(s) && Enabled(s, Finish(id, result)) && id in s.tasks.wakes
    ensures var t := Next(s, Finish(id, result));
            if result.Pending? then id in t.repolling && id in t.tasks.parked else !Live(t, id)
  {
    assert Fine(s, id);
    RetainedKeeps(s.tasks.polling, id, id);
    assert id in s.tasks.parked <==> multiset(s.tasks.parked)[id] > 0;
  }
}
