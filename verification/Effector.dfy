/**
 The event-sourced effector. In Ephemeral mode an operation is one call on the store; in
 Persisted mode it is a chain of waits for acknowledgements of a store actor, during
 which user messages are stashed. Every run of the chain is shown to have the effect
 of the one-shot form.
 */
module Effector {
  import opened Options
  import opened Retention
  import opened EventStore

  type Message(!new)

  // ---------- operations and callbacks ----------

  /** The events of `persist_event` and of `persist_events`. */
  datatype Batch = One(event: Event) | Many(events: seq<Event>)
  {
    function Events(): seq<Event> { if One? then [event] else this.events }

    function OnPersisted(): Callback { if One? then OnFirst else OnAll }
  }

  datatype Offer = Offer(state: State, force: bool)

  datatype Op =
    | Persist(batch: Batch)
    | PersistThenSnapshot(batch: Batch, offer: Offer)
    | PersistSnapshot(offer: Offer)

  /** What a callback is called with. */
  datatype Arg = EventArg(event: Event) | EventsArg(events: seq<Event>) | SnapshotArg(state: State)

  datatype Callback = OnFirst | OnAll
  {
    function ArgFor(es: seq<Event>): Option<Arg> {
      match this
      case OnFirst => if es == [] then None else Some(EventArg(es[0]))
      case OnAll => Some(EventsArg(es))
    }
  }

  datatype SnapshotCallback = OnSnapshot | AfterEvents(callback: Callback, events: seq<Event>)
  {
    function ArgFor(state: State): Option<Arg> {
      match this
      case OnSnapshot => Some(SnapshotArg(state))
      case AfterEvents(callback, es) => callback.ArgFor(es)
    }
  }

  function Last(es: seq<Event>): Option<Event> {
    if es == [] then None else Some(es[|es| - 1])
  }

  predicate ShouldSave(config: Config, event: Option<Event>, offer: Offer, sequenceNr: U64) {
    offer.force || config.criteria.ShouldTake(event, offer.state, sequenceNr)
  }

  // ---------- Deferred and Ephemeral mode ----------

  /** The store, the effector's sequence number and the callbacks run so far. */
  datatype World = World(entry: Entry, sequenceNr: U64, calls: seq<Arg>)

  /** Deferred mode calls back with what the caller handed in. */
  function ArgOf(op: Op): Arg {
    match op
    case PersistSnapshot(offer) => SnapshotArg(offer.state)
    case _ => if op.batch.One? then EventArg(op.batch.event) else EventsArg(op.batch.events)
  }

  function Deferred(w: World, op: Op): World {
    w.(calls := w.calls + [ArgOf(op)])
  }

  /** The other modes call back with what the store gave back, if it gave anything to call with. */
  function Called(calls: seq<Arg>, arg: Option<Arg>): seq<Arg> {
    match arg
    case None => calls
    case Some(a) => calls + [a]
  }

  /** Deletes what the retention criteria let go after a snapshot at `sequenceNr`. */
  function Retain(config: Config, entry: Entry, sequenceNr: U64): Entry {
    match config.retention.DeleteTo(sequenceNr)
    case None => entry
    case Some(to) => DeleteSnapshots(if config.retention.deleteEvents then DeleteEvents(entry, to) else entry, to)
  }

  function SaveOffer(config: Config, entry: Entry, event: Option<Event>, offer: Offer, sequenceNr: U64): Entry {
    if ShouldSave(config, event, offer, sequenceNr)
    then Retain(config, SaveSnapshot(entry, offer.state, sequenceNr), sequenceNr)
    else entry
  }

  function Ephemeral(config: Config, w: World, op: Op): World {
    match op
    case Persist(batch) =>
      var events := batch.Events();
      var entry := PersistEvents(w.entry, events);
      World(entry, entry.sequenceNr, Called(w.calls, batch.OnPersisted().ArgFor(events)))
    case PersistThenSnapshot(batch, offer) =>
      var events := batch.Events();
      var entry := PersistEvents(w.entry, events);
      var saved := SaveOffer(config, entry, Last(events), offer, entry.sequenceNr);
      World(saved, entry.sequenceNr, Called(w.calls, batch.OnPersisted().ArgFor(events)))
    case PersistSnapshot(offer) =>
      var saved := SaveOffer(config, w.entry, None, offer, w.sequenceNr);
      World(saved, w.sequenceNr, Called(w.calls, OnSnapshot.ArgFor(offer.state)))
  }

  /** Operations one after the other, each started by the callback of the one before. */
  function RunScript(config: Config, w: World, ops: seq<Op>): World
    decreases |ops|
  {
    if ops == [] then w else RunScript(config, Ephemeral(config, w, ops[0]), ops[1..])
  }

  function RunDeferred(w: World, ops: seq<Op>): World
    decreases |ops|
  {
    if ops == [] then w else RunDeferred(Deferred(w, ops[0]), ops[1..])
  }

  lemma {:induction false} RunScriptAppend(config: Config, w: World, a: seq<Op>, b: seq<Op>)
    ensures RunScript(config, w, a + b) == RunScript(config, RunScript(config, w, a), b)
    decreases |a|
  {
    if a == [] {
      assert a + b == b;
    } else {
      RunScriptAppend(config, Ephemeral(config, w, a[0]), a[1..], b);
      assert (a + b)[1..] == a[1..] + b;
    }
  }

  /** Deferred mode stores nothing and runs the same callbacks with the same arguments. */
  lemma {:induction false} DeferredCallsAlike(config: Config, w: World, d: World, ops: seq<Op>)
    requires d.calls == w.calls
    ensures RunDeferred(d, ops).calls == RunScript(config, w, ops).calls
    ensures RunDeferred(d, ops) == d.(calls := RunDeferred(d, ops).calls)
    decreases |ops|
  {
    if ops != [] {
      DeferredCallsAlike(config, Ephemeral(config, w, ops[0]), Deferred(d, ops[0]), ops[1..]);
    }
  }

  // ---------- Persisted mode ----------

  datatype Command =
    | Recovery
    | StoreEvents(events: seq<Event>)
    | StoreSnapshot(state: State)
    | RemoveEvents(to: U64)
    | RemoveSnapshots(to: U64)

  datatype Notice =
    | RecoveryDone
    | SnapshotCompleted
    | SnapshotsDeleted(to: U64)
    | EventsDeleted(to: U64)
    | JournalPersistFailed
    | OtherFailure
  {
    predicate Failure() { JournalPersistFailed? || OtherFailure? }
  }

  datatype Signal =
    | Recovered(state: State, sequenceNr: U64)
    | PersistedEvents(events: seq<Event>, sequenceNr: U64)
    | PersistedSnapshot(state: State, sequenceNr: U64)
    | DeletedSnapshots(to: U64)
    | EventSourced(notice: Notice)

  datatype Error = StashFull | UnexpectedAck | StoreFailed(recoverable: bool)

  /** The behaviour in place; `rest` holds the operations the callback goes on to start. */
  datatype Mode =
    | Recovering
    | Ready
    | WaitEvents(callback: Callback, rest: seq<Op>)
    | WaitEventsThenSnapshot(callback: Callback, offer: Offer, rest: seq<Op>)
    | WaitSnapshot(reply: SnapshotCallback, rest: seq<Op>)
    | WaitDeletedEvents(reply: SnapshotCallback, state: State, to: U64, rest: seq<Op>)
    | WaitDeletedSnapshots(reply: SnapshotCallback, state: State, to: U64, rest: seq<Op>)
    | Failed(error: Error)

  /** The effector, its callbacks so far, the store, the commands on their way to it and all events it took. */
  datatype Core = Core(
    mode: Mode,
    sequenceNr: U64,
    entry: Entry,
    calls: seq<Arg>,
    commands: seq<Command>,
    logged: seq<Event>)
  {
    function ToWorld(): World { World(entry, sequenceNr, calls) }

    function Send(command: Command, next: Mode): Core {
      this.(mode := next, commands := commands + [command])
    }
  }

  /** The store actor takes its next command and acknowledges it. */
  function Serve(config: Config, c: Core): (Core, seq<Signal>)
    requires c.commands != []
  {
    var d := c.(commands := c.commands[1..]);
    match c.commands[0]
    case Recovery =>
      (d, [EventSourced(RecoveryDone), Recovered(Recover(config, c.entry).0, c.entry.sequenceNr)])
    case StoreEvents(es) =>
      var entry := PersistEvents(c.entry, es);
      (d.(entry := entry, logged := c.logged + es), [PersistedEvents(es, entry.sequenceNr)])
    case StoreSnapshot(state) =>
      var n := c.entry.sequenceNr;
      (d.(entry := SaveSnapshot(c.entry, state, n)), [EventSourced(SnapshotCompleted), PersistedSnapshot(state, n)])
    case RemoveEvents(to) =>
      (d.(entry := DeleteEvents(c.entry, to)), [EventSourced(EventsDeleted(to))])
    case RemoveSnapshots(to) =>
      (d.(entry := DeleteSnapshots(c.entry, to)), [EventSourced(SnapshotsDeleted(to)), DeletedSnapshots(to)])
  }

  /** The store actor takes its next command and answers with a failure, whether or not it had its effect. */
  function Fail(config: Config, c: Core, notice: Notice, applied: bool): (Core, seq<Signal>)
    requires c.commands != []
  {
    (if applied then Serve(config, c).0 else c.(commands := c.commands[1..]), [EventSourced(notice)])
  }

  /** Starts operations until one has to wait; user code that is done goes back to its behaviour. */
  function Start(config: Config, c: Core, ops: seq<Op>): Core
    decreases |ops|
  {
    if ops == [] then c.(mode := Ready)
    else
      var rest := ops[1..];
      match ops[0]
      case Persist(batch) => c.Send(StoreEvents(batch.Events()), WaitEvents(batch.OnPersisted(), rest))
      case PersistThenSnapshot(batch, offer) =>
        c.Send(StoreEvents(batch.Events()), WaitEventsThenSnapshot(batch.OnPersisted(), offer, rest))
      case PersistSnapshot(offer) =>
        if ShouldSave(config, None, offer, c.sequenceNr)
        then c.Send(StoreSnapshot(offer.state), WaitSnapshot(OnSnapshot, rest))
        else Start(config, c.(calls := c.calls + [SnapshotArg(offer.state)]), rest)
  }

  /** The next core, and whether the stash goes back to the mailbox. */
  datatype Reaction = Reaction(core: Core, unstash: bool)

  /** Runs the callback, if there is something to call it with, and what it starts. */
  function Call(config: Config, c: Core, arg: Option<Arg>, rest: seq<Op>): Reaction {
    match arg
    case None => Reaction(c, true)
    case Some(a) => Reaction(Start(config, c.(calls := c.calls + [a]), rest), true)
  }

  function OnNotice(config: Config, c: Core, notice: Notice): Reaction {
    match notice
    case JournalPersistFailed => Reaction(c.(mode := Failed(StoreFailed(config.persistFailureBackoff))), false)
    case OtherFailure => Reaction(c.(mode := Failed(StoreFailed(false))), false)
    case _ => Reaction(c, false)
  }

  function OnPersistedSnapshot(config: Config, c: Core, reply: SnapshotCallback, state: State, n: U64, rest: seq<Op>): Reaction {
    var d := c.(sequenceNr := n);
    match config.retention.DeleteTo(n)
    case None => Call(config, d, reply.ArgFor(state), rest)
    case Some(to) =>
      if config.retention.deleteEvents
      then Reaction(d.Send(RemoveEvents(to), WaitDeletedEvents(reply, state, to, rest)), false)
      else Reaction(d.Send(RemoveSnapshots(to), WaitDeletedSnapshots(reply, state, to, rest)), false)
  }

  /** A store signal in the behaviour in place; `script` is what `on_ready` starts after recovery. */
  function OnSignal(config: Config, c: Core, signal: Signal, script: seq<Op>): Reaction {
    match (c.mode, signal)
    case (Ready, _) => Reaction(c, false)
    case (Failed(_), _) => Reaction(c, false)
    case (Recovering, Recovered(_, n)) => Reaction(Start(config, c.(sequenceNr := n), script), true)
    case (WaitEvents(callback, rest), PersistedEvents(es, n)) =>
      Call(config, c.(sequenceNr := n), callback.ArgFor(es), rest)
    case (WaitEventsThenSnapshot(callback, offer, rest), PersistedEvents(es, n)) =>
      if ShouldSave(config, Last(es), offer, n)
      then Reaction(c.(sequenceNr := n).Send(StoreSnapshot(offer.state), WaitSnapshot(AfterEvents(callback, es), rest)), true)
      else Call(config, c.(sequenceNr := n), callback.ArgFor(es), rest)
    case (WaitSnapshot(reply, rest), PersistedSnapshot(state, n)) => OnPersistedSnapshot(config, c, reply, state, n, rest)
    case (WaitDeletedEvents(reply, state, to, rest), EventSourced(EventsDeleted(t))) =>
      if t == to then Reaction(c.Send(RemoveSnapshots(to), WaitDeletedSnapshots(reply, state, to, rest)), false)
      else Reaction(c.(mode := Failed(UnexpectedAck)), false)
    case (WaitDeletedSnapshots(reply, state, to, rest), DeletedSnapshots(t)) =>
      if t == to then Call(config, c, reply.ArgFor(state), rest)
      else Reaction(c.(mode := Failed(UnexpectedAck)), false)
    case (_, EventSourced(notice)) => OnNotice(config, c, notice)
    case (_, _) => Reaction(c, false)
  }

  // ---------- the actor with its mailbox and stash ----------

  datatype Mail = User(message: Message) | FromStore(signal: Signal)

  /** `handled`, `arrivals` and `issued` record what the user code saw, what came in and what was started. */
  datatype Actor = Actor(
    core: Core,
    mailbox: seq<Mail>,
    stash: seq<Message>,
    handled: seq<Message>,
    arrivals: seq<Message>,
    issued: seq<Op>)

  function Users(mailbox: seq<Mail>): seq<Message> {
    if mailbox == [] then []
    else if mailbox[0].User? then [mailbox[0].message] + Users(mailbox[1..])
    else Users(mailbox[1..])
  }

  function Signals(mailbox: seq<Mail>): seq<Signal> {
    if mailbox == [] then []
    else if mailbox[0].FromStore? then [mailbox[0].signal] + Signals(mailbox[1..])
    else Signals(mailbox[1..])
  }

  function AsMail(messages: seq<Message>): seq<Mail> {
    seq(|messages|, i requires 0 <= i < |messages| => User(messages[i]))
  }

  function SignalMail(signals: seq<Signal>): seq<Mail> {
    seq(|signals|, i requires 0 <= i < |signals| => FromStore(signals[i]))
  }

  datatype Move =
    | Arrive(message: Message)
    | Store
    | StoreFails(notice: Notice, applied: bool)
    | Deliver(script: seq<Op>)

  predicate Enabled(a: Actor, move: Move) {
    match move
    case Arrive(_) => true
    case Store => a.core.commands != []
    case StoreFails(notice, _) => a.core.commands != [] && notice.Failure()
    case Deliver(_) => a.mailbox != [] && !a.core.mode.Failed?
  }

  function OnUser(config: Config, a: Actor, message: Message, script: seq<Op>): Actor {
    if a.core.mode.Ready? then
      a.(core := Start(config, a.core, script), handled := a.handled + [message], issued := a.issued + script)
    else if |a.stash| >= config.stashCapacity then a.(core := a.core.(mode := Failed(StashFull)))
    else a.(stash := a.stash + [message])
  }

  function OnStoreSignal(config: Config, a: Actor, signal: Signal, script: seq<Op>): Actor {
    var r := OnSignal(config, a.core, signal, script);
    var issued := if a.core.mode.Recovering? && signal.Recovered? then a.issued + script else a.issued;
    var b := a.(core := r.core, issued := issued);
    if r.unstash then b.(mailbox := AsMail(a.stash) + a.mailbox, stash := []) else b
  }

  function Next(config: Config, a: Actor, move: Move): Actor
    requires Enabled(a, move)
  {
    match move
    case Arrive(m) => a.(mailbox := a.mailbox + [User(m)], arrivals := a.arrivals + [m])
    case Store =>
      var (core, signals) := Serve(config, a.core);
      a.(core := core, mailbox := a.mailbox + SignalMail(signals))
    case StoreFails(notice, applied) =>
      var (core, signals) := Fail(config, a.core, notice, applied);
      a.(core := core, mailbox := a.mailbox + SignalMail(signals))
    case Deliver(script) =>
      var b := a.(mailbox := a.mailbox[1..]);
      match a.mailbox[0]
      case User(m) => OnUser(config, b, m, script)
      case FromStore(signal) => OnStoreSignal(config, b, signal, script)
  }

  function Initial(entry: Entry): Actor {
    Actor(Core(Recovering, 0, entry, [], [Recovery], []), [], [], [], [], [])
  }

  ghost predicate IsRun(config: Config, entry: Entry, actors: seq<Actor>, moves: seq<Move>) {
    && |actors| == |moves| + 1
    && actors[0] == Initial(entry)
    && forall i {:trigger moves[i]} :: 0 <= i < |moves| ==> Enabled(actors[i], moves[i]) && actors[i + 1] == Next(config, actors[i], moves[i])
  }

  // ---------- what a state of the chain promises ----------

  /** The world with one more callback run, then everything it starts. */
  ghost predicate EndsIn(config: Config, entry: Entry, n: U64, calls: seq<Arg>, arg: Option<Arg>, rest: seq<Op>, w: World) {
    arg.Some? && w == RunScript(config, World(entry, n, calls + [arg.value]), rest)
  }

  /** With nothing on its way to the store, `c` and the signals on their way back lead to `w`. */
  ghost predicate Acked(config: Config, c: Core, signals: seq<Signal>, w: World) {
    var n := c.entry.sequenceNr;
    match c.mode
    case Failed(_) => false
    case Ready => signals == [] && c.sequenceNr == n && w == c.ToWorld()
    case Recovering =>
      && w == World(c.entry, n, c.calls)
      && OneOrBoth(signals, EventSourced(RecoveryDone), Recovered(Recover(config, c.entry).0, n))
    case WaitEvents(callback, rest) =>
      && |signals| == 1 && signals[0].PersistedEvents? && signals[0].sequenceNr == n
      && EndsIn(config, c.entry, n, c.calls, callback.ArgFor(signals[0].events), rest, w)
    case WaitEventsThenSnapshot(callback, offer, rest) =>
      && |signals| == 1 && signals[0].PersistedEvents? && signals[0].sequenceNr == n
      && var es := signals[0].events;
         EndsIn(config, SaveOffer(config, c.entry, Last(es), offer, n), n, c.calls, callback.ArgFor(es), rest, w)
    case WaitSnapshot(reply, rest) =>
      && signals != [] && signals[|signals| - 1].PersistedSnapshot?
      && var state := signals[|signals| - 1].state;
         && OneOrBoth(signals, EventSourced(SnapshotCompleted), PersistedSnapshot(state, n))
         && EndsIn(config, Retain(config, c.entry, n), n, c.calls, reply.ArgFor(state), rest, w)
    case WaitDeletedEvents(reply, state, to, rest) =>
      && signals == [EventSourced(EventsDeleted(to))] && c.sequenceNr == n
      && EndsIn(config, DeleteSnapshots(c.entry, to), n, c.calls, reply.ArgFor(state), rest, w)
    case WaitDeletedSnapshots(reply, state, to, rest) =>
      && OneOrBoth(signals, EventSourced(SnapshotsDeleted(to)), DeletedSnapshots(to)) && c.sequenceNr == n
      && EndsIn(config, c.entry, n, c.calls, reply.ArgFor(state), rest, w)
  }

  ghost predicate OneOrBoth(signals: seq<Signal>, first: Signal, second: Signal) {
    signals == [first, second] || signals == [second]
  }

  /** At most one command is on its way to the store, and then no signal on its way back. */
  ghost predicate Settles(config: Config, c: Core, signals: seq<Signal>, w: World) {
    if c.commands == [] then Acked(config, c, signals, w)
    else
      && |c.commands| == 1 && signals == []
      && var (d, acks) := Serve(config, c); Acked(config, d, acks, w)
  }

  lemma SendSettles(config: Config, c: Core, command: Command, next: Mode, w: World)
    requires c.commands == []
    requires var d := c.(mode := next, commands := [command]);
             var (e, acks) := Serve(config, d); Acked(config, e, acks, w)
    ensures Settles(config, c.Send(command, next), [], w)
  {
    assert c.commands + [command] == [command];
  }

  /** Whatever user code starts from an idle effector, the chain ends where the one-shot form does. */
  lemma {:induction false} StartSettles(config: Config, c: Core, ops: seq<Op>)
    requires c.commands == [] && c.sequenceNr == c.entry.sequenceNr
    ensures Settles(config, Start(config, c, ops), [], RunScript(config, c.ToWorld(), ops))
    decreases |ops|
  {
    if ops != [] {
      var rest := ops[1..];
      var w := RunScript(config, c.ToWorld(), ops);
      match ops[0] {
        case Persist(batch) =>
          SendSettles(config, c, StoreEvents(batch.Events()), WaitEvents(batch.OnPersisted(), rest), w);
        case PersistThenSnapshot(batch, offer) =>
          SendSettles(config, c, StoreEvents(batch.Events()), WaitEventsThenSnapshot(batch.OnPersisted(), offer, rest), w);
        case PersistSnapshot(offer) =>
          if ShouldSave(config, None, offer, c.sequenceNr) {
            SendSettles(config, c, StoreSnapshot(offer.state), WaitSnapshot(OnSnapshot, rest), w);
          } else {
            var d := c.(calls := c.calls + [SnapshotArg(offer.state)]);
            assert Ephemeral(config, c.ToWorld(), ops[0]) == d.ToWorld();
            StartSettles(config, d, rest);
          }
      }
    }
  }

  lemma CallSettles(config: Config, c: Core, arg: Option<Arg>, rest: seq<Op>, w: World)
    requires c.commands == [] && c.sequenceNr == c.entry.sequenceNr
    requires EndsIn(config, c.entry, c.sequenceNr, c.calls, arg, rest, w)
    ensures Settles(config, Call(config, c, arg, rest).core, [], w)
  {
    StartSettles(config, c.(calls := c.calls + [arg.value]), rest);
  }

  lemma PersistedSnapshotSettles(config: Config, c: Core, reply: SnapshotCallback, state: State, rest: seq<Op>, w: World)
    requires c.commands == []
    requires EndsIn(config, Retain(config, c.entry, c.entry.sequenceNr), c.entry.sequenceNr, c.calls, reply.ArgFor(state), rest, w)
    ensures Settles(config, OnPersistedSnapshot(config, c, reply, state, c.entry.sequenceNr, rest).core, [], w)
  {
    var d := c.(sequenceNr := c.entry.sequenceNr);
    match config.retention.DeleteTo(d.sequenceNr) {
      case None => CallSettles(config, d, reply.ArgFor(state), rest, w);
      case Some(to) =>
        if config.retention.deleteEvents {
          SendSettles(config, d, RemoveEvents(to), WaitDeletedEvents(reply, state, to, rest), w);
        } else {
          SendSettles(config, d, RemoveSnapshots(to), WaitDeletedSnapshots(reply, state, to, rest), w);
        }
    }
  }

  lemma PersistedEventsSettles(config: Config, c: Core, signal: Signal, script: seq<Op>, w: World)
    requires c.commands == [] && c.mode.WaitEventsThenSnapshot? && Acked(config, c, [signal], w)
    ensures Settles(config, OnSignal(config, c, signal, script).core, [], w)
  {
    var d := c.(sequenceNr := c.entry.sequenceNr);
    var callback, rest, es := c.mode.callback, c.mode.rest, signal.events;
    if ShouldSave(config, Last(es), c.mode.offer, d.sequenceNr) {
      SendSettles(config, d, StoreSnapshot(c.mode.offer.state), WaitSnapshot(AfterEvents(callback, es), rest), w);
    } else {
      CallSettles(config, d, callback.ArgFor(es), rest, w);
    }
  }

  /** A signal is handled in the state it is meant for, and keeps the promise. */
  lemma SignalSettles(config: Config, c: Core, signals: seq<Signal>, script: seq<Op>, w: World)
    requires signals != [] && Settles(config, c, signals, w)
    ensures var v := if c.mode.Recovering? && signals[0].Recovered? then RunScript(config, w, script) else w;
            Settles(config, OnSignal(config, c, signals[0], script).core, signals[1..], v)
  {
    var d := c.(sequenceNr := c.entry.sequenceNr);
    match c.mode {
      case Recovering =>
        if signals[0].Recovered? {
          StartSettles(config, d, script);
        }
      case WaitEvents(callback, rest) => CallSettles(config, d, callback.ArgFor(signals[0].events), rest, w);
      case WaitEventsThenSnapshot(_, _, _) =>
        assert signals == [signals[0]];
        PersistedEventsSettles(config, c, signals[0], script, w);
      case WaitSnapshot(reply, rest) =>
        if signals[0].PersistedSnapshot? {
          PersistedSnapshotSettles(config, c, reply, signals[0].state, rest, w);
        }
      case WaitDeletedEvents(reply, state, to, rest) =>
        SendSettles(config, c, RemoveSnapshots(to), WaitDeletedSnapshots(reply, state, to, rest), w);
      case WaitDeletedSnapshots(reply, state, to, rest) =>
        if signals[0].DeletedSnapshots? {
          CallSettles(config, c, reply.ArgFor(state), rest, w);
        }
      case _ =>
    }
  }

  // ---------- mailboxes ----------

  lemma {:induction false} UsersAppend(a: seq<Mail>, b: seq<Mail>)
    ensures Users(a + b) == Users(a) + Users(b)
  {
    if a == [] {
      assert a + b == b;
    } else {
      UsersAppend(a[1..], b);
      assert (a + b)[0] == a[0] && (a + b)[1..] == a[1..] + b;
    }
  }

  lemma {:induction false} SignalsAppend(a: seq<Mail>, b: seq<Mail>)
    ensures Signals(a + b) == Signals(a) + Signals(b)
  {
    if a == [] {
      assert a + b == b;
    } else {
      SignalsAppend(a[1..], b);
      assert (a + b)[0] == a[0] && (a + b)[1..] == a[1..] + b;
    }
  }

  lemma {:induction false} MailOf(messages: seq<Message>)
    ensures Users(AsMail(messages)) == messages && Signals(AsMail(messages)) == []
  {
    if messages != [] {
      MailOf(messages[1..]);
      assert AsMail(messages)[1..] == AsMail(messages[1..]);
    }
  }

  lemma {:induction false} MailFrom(signals: seq<Signal>)
    ensures Users(SignalMail(signals)) == [] && Signals(SignalMail(signals)) == signals
  {
    if signals != [] {
      MailFrom(signals[1..]);
      assert SignalMail(signals)[1..] == SignalMail(signals[1..]);
    }
  }

  // ---------- runs ----------

  /** User messages wait in arrival order, and none is held back from a ready actor. */
  ghost predicate InOrder(a: Actor) {
    && a.handled + a.stash + Users(a.mailbox) == a.arrivals
    && (a.core.mode.Ready? ==> a.stash == [])
  }

  /** What the one-shot form does with everything started so far. */
  ghost function Expected(config: Config, entry: Entry, issued: seq<Op>): World {
    RunScript(config, World(entry, entry.sequenceNr, []), issued)
  }

  /** On course, as long as the store has not failed: only a full stash can have ended it. */
  ghost predicate Invariant(config: Config, entry: Entry, a: Actor) {
    if a.core.mode.Failed? then a.core.mode.error.StashFull?
    else
      && InOrder(a)
      && Settles(config, a.core, Signals(a.mailbox), Expected(config, entry, a.issued))
  }

  lemma InitialInvariant(config: Config, entry: Entry)
    ensures Invariant(config, entry, Initial(entry))
  {
  }

  lemma ArriveKeeps(config: Config, entry: Entry, a: Actor, m: Message)
    requires Invariant(config, entry, a)
    ensures Invariant(config, entry, Next(config, a, Arrive(m)))
  {
    UsersAppend(a.mailbox, [User(m)]);
    SignalsAppend(a.mailbox, [User(m)]);
  }

  /** What the store does shows in the core and in the signals alone. */
  lemma StoreMail(config: Config, a: Actor)
    requires Enabled(a, Store)
    ensures var b := Next(config, a, Store);
            && b.core == Serve(config, a.core).0
            && Signals(b.mailbox) == Signals(a.mailbox) + Serve(config, a.core).1
            && Users(b.mailbox) == Users(a.mailbox)
  {
    var acks := Serve(config, a.core).1;
    MailFrom(acks);
    UsersAppend(a.mailbox, SignalMail(acks));
    SignalsAppend(a.mailbox, SignalMail(acks));
  }

  lemma ServeSettles(config: Config, c: Core, signals: seq<Signal>, w: World)
    requires c.commands != [] && Settles(config, c, signals, w)
    ensures var (d, acks) := Serve(config, c);
            Settles(config, d, signals + acks, w) && d.mode == c.mode
  {
    var (d, acks) := Serve(config, c);
    assert signals + acks == acks;
  }

  lemma StoreKeeps(config: Config, entry: Entry, a: Actor)
    requires Invariant(config, entry, a) && Enabled(a, Store)
    ensures Invariant(config, entry, Next(config, a, Store))
  {
    StoreMail(config, a);
    if !a.core.mode.Failed? {
      ServeSettles(config, a.core, Signals(a.mailbox), Expected(config, entry, a.issued));
    }
  }

  /** Going back to the user's behaviour always puts the stash back first. */
  lemma ReadyUnstashes(config: Config, c: Core, signal: Signal, script: seq<Op>)
    requires !c.mode.Ready? && OnSignal(config, c, signal, script).core.mode.Ready?
    ensures OnSignal(config, c, signal, script).unstash
  {
  }

  lemma UserOrder(config: Config, a: Actor, script: seq<Op>)
    requires InOrder(a) && Enabled(a, Deliver(script)) && a.mailbox[0].User?
    ensures var b := Next(config, a, Deliver(script)); b.core.mode.Failed? || InOrder(b)
  {
    var m := a.mailbox[0].message;
    assert Users(a.mailbox) == [m] + Users(a.mailbox[1..]);
    assert a.handled + [] == a.handled;
    assert a.handled + a.stash + ([m] + Users(a.mailbox[1..])) == a.handled + (a.stash + [m]) + Users(a.mailbox[1..]);
  }

  lemma SignalOrder(config: Config, a: Actor, script: seq<Op>)
    requires InOrder(a) && Enabled(a, Deliver(script)) && a.mailbox[0].FromStore? && !a.core.mode.Ready?
    ensures InOrder(Next(config, a, Deliver(script)))
  {
    var rest, signal := a.mailbox[1..], a.mailbox[0].signal;
    MailOf(a.stash);
    UsersAppend(AsMail(a.stash), rest);
    if OnSignal(config, a.core, signal, script).core.mode.Ready? {
      ReadyUnstashes(config, a.core, signal, script);
    }
    assert Users(a.mailbox) == Users(rest);
    assert a.handled + a.stash + Users(rest) == a.handled + [] + (a.stash + Users(rest));
  }

  lemma UserKeeps(config: Config, entry: Entry, a: Actor, script: seq<Op>)
    requires Invariant(config, entry, a) && Enabled(a, Deliver(script)) && a.mailbox[0].User?
    ensures Invariant(config, entry, Next(config, a, Deliver(script)))
  {
    UserOrder(config, a, script);
    if a.core.mode.Ready? {
      StartSettles(config, a.core, script);
      RunScriptAppend(config, World(entry, entry.sequenceNr, []), a.issued, script);
    }
  }

  lemma SettledNotFailed(config: Config, c: Core, signals: seq<Signal>, w: World)
    requires Settles(config, c, signals, w)
    ensures !c.mode.Failed? && (c.mode.Ready? ==> signals == [])
  {
  }

  lemma SignalTaken(config: Config, a: Actor, script: seq<Op>)
    requires Enabled(a, Deliver(script)) && a.mailbox[0].FromStore?
    ensures var b := Next(config, a, Deliver(script));
            && b.core == OnSignal(config, a.core, a.mailbox[0].signal, script).core
            && Signals(a.mailbox) == [a.mailbox[0].signal] + Signals(b.mailbox)
  {
    MailOf(a.stash);
    SignalsAppend(AsMail(a.stash), a.mailbox[1..]);
  }

  lemma SignalKeeps(config: Config, entry: Entry, a: Actor, script: seq<Op>)
    requires Invariant(config, entry, a) && Enabled(a, Deliver(script)) && a.mailbox[0].FromStore?
    ensures Invariant(config, entry, Next(config, a, Deliver(script)))
  {
    var b, signals, w := Next(config, a, Deliver(script)), Signals(a.mailbox), Expected(config, entry, a.issued);
    SignalTaken(config, a, script);
    SettledNotFailed(config, a.core, signals, w);
    SignalOrder(config, a, script);
    SignalSettles(config, a.core, signals, script, w);
    RunScriptAppend(config, World(entry, entry.sequenceNr, []), a.issued, script);
    assert signals[1..] == Signals(b.mailbox);
    SettledNotFailed(config, b.core, Signals(b.mailbox), Expected(config, entry, b.issued));
  }

  lemma NextKeeps(config: Config, entry: Entry, a: Actor, move: Move)
    requires Invariant(config, entry, a) && Enabled(a, move) && !move.StoreFails?
    ensures Invariant(config, entry, Next(config, a, move))
  {
    match move {
      case Arrive(m) => ArriveKeeps(config, entry, a, m);
      case Store => StoreKeeps(config, entry, a);
      case Deliver(script) =>
        if a.mailbox[0].User? {
          UserKeeps(config, entry, a, script);
        } else {
          SignalKeeps(config, entry, a, script);
        }
    }
  }

  // ---------- a store that fails ----------

  /** How the actor ends when it takes the notice. */
  function ErrorOf(config: Config, notice: Notice): Error {
    StoreFailed(notice.JournalPersistFailed? && config.persistFailureBackoff)
  }

  /** The store has failed with `notice`: the actor waits and the notice is on its way, or was taken. */
  ghost predicate Broken(config: Config, a: Actor, notice: Notice) {
    && a.core.commands == [] && notice.Failure()
    && match a.core.mode
       case Ready => false
       case Failed(error) => error == ErrorOf(config, notice)
       case _ => Signals(a.mailbox) == [EventSourced(notice)] && InOrder(a)
  }

  ghost predicate Reliable(config: Config, entry: Entry, a: Actor) {
    Invariant(config, entry, a) || Broken(config, a, JournalPersistFailed) || Broken(config, a, OtherFailure)
  }

  lemma FailMail(config: Config, a: Actor, notice: Notice, applied: bool)
    requires Enabled(a, StoreFails(notice, applied))
    ensures var b := Next(config, a, StoreFails(notice, applied));
            && b.core == Fail(config, a.core, notice, applied).0
            && Signals(b.mailbox) == Signals(a.mailbox) + [EventSourced(notice)]
            && Users(b.mailbox) == Users(a.mailbox)
  {
    MailFrom([EventSourced(notice)]);
    UsersAppend(a.mailbox, SignalMail([EventSourced(notice)]));
    SignalsAppend(a.mailbox, SignalMail([EventSourced(notice)]));
  }

  /** A failure finds a waiting actor with no other signal on its way. */
  lemma FailBreaks(config: Config, entry: Entry, a: Actor, notice: Notice, applied: bool)
    requires Invariant(config, entry, a) && Enabled(a, StoreFails(notice, applied))
    ensures var b := Next(config, a, StoreFails(notice, applied));
            && b.core.mode == a.core.mode && b.core.calls == a.core.calls
            && (if a.core.mode.Failed? then Invariant(config, entry, b) else Broken(config, b, notice))
  {
    FailMail(config, a, notice, applied);
    if !a.core.mode.Failed? {
      assert Signals(a.mailbox) + [EventSourced(notice)] == [EventSourced(notice)];
    }
  }

  lemma BrokenSignal(config: Config, a: Actor, notice: Notice, script: seq<Op>)
    requires Broken(config, a, notice) && Enabled(a, Deliver(script)) && a.mailbox[0].FromStore?
    ensures var b := Next(config, a, Deliver(script));
            b == a.(core := b.core, mailbox := a.mailbox[1..]) && b.core == a.core.(mode := Failed(ErrorOf(config, notice)))
  {
    assert Signals(a.mailbox)[0] == a.mailbox[0].signal;
  }

  lemma BrokenUser(config: Config, a: Actor, notice: Notice, script: seq<Op>)
    requires Broken(config, a, notice) && Enabled(a, Deliver(script)) && a.mailbox[0].User?
    ensures var b := Next(config, a, Deliver(script));
            && b.core == a.core.(mode := b.core.mode) && b.issued == a.issued
            && (Broken(config, b, notice) || b.core.mode == Failed(StashFull))
  {
    UserOrder(config, a, script);
  }

  /** After a failure of the store no callback runs and nothing is stored or sent any more. */
  lemma BrokenKeeps(config: Config, a: Actor, notice: Notice, move: Move)
    requires Broken(config, a, notice) && Enabled(a, move)
    ensures var b := Next(config, a, move);
            && b.core == a.core.(mode := b.core.mode) && b.issued == a.issued
            && (Broken(config, b, notice) || b.core.mode == Failed(StashFull))
  {
    match move {
      case Arrive(m) =>
        UsersAppend(a.mailbox, [User(m)]);
        SignalsAppend(a.mailbox, [User(m)]);
      case Deliver(script) =>
        if a.mailbox[0].User? {
          BrokenUser(config, a, notice, script);
        } else {
          BrokenSignal(config, a, notice, script);
        }
    }
  }

  lemma ReliableNext(config: Config, entry: Entry, a: Actor, move: Move)
    requires Reliable(config, entry, a) && Enabled(a, move)
    ensures Reliable(config, entry, Next(config, a, move))
  {
    if Broken(config, a, JournalPersistFailed) {
      BrokenKeeps(config, a, JournalPersistFailed, move);
    } else if Broken(config, a, OtherFailure) {
      BrokenKeeps(config, a, OtherFailure, move);
    } else if move.StoreFails? {
      FailBreaks(config, entry, a, move.notice, move.applied);
    } else {
      NextKeeps(config, entry, a, move);
    }
  }

  /** In every state of every run: on course, or the store has failed. */
  lemma {:induction false} RunInvariant(config: Config, entry: Entry, actors: seq<Actor>, moves: seq<Move>, i: nat)
    requires IsRun(config, entry, actors, moves) && i < |actors|
    ensures Reliable(config, entry, actors[i])
  {
    if i == 0 {
      InitialInvariant(config, entry);
    } else {
      RunInvariant(config, entry, actors, moves, i - 1);
      ReliableNext(config, entry, actors[i - 1], moves[i - 1]);
    }
  }

  /** Before the state at `i` the store has failed with a notice that ends the actor in this way. */
  ghost predicate FailedAs(config: Config, moves: seq<Move>, i: nat, error: Error) {
    exists j {:trigger moves[j]} :: 0 <= j < i && j < |moves| && moves[j].StoreFails? && ErrorOf(config, moves[j].notice) == error
  }

  lemma SettledNotBroken(config: Config, entry: Entry, a: Actor, notice: Notice)
    requires Invariant(config, entry, a)
    ensures !Broken(config, a, notice)
  {
  }

  lemma BreaksByStore(config: Config, entry: Entry, a: Actor, move: Move, notice: Notice)
    requires Invariant(config, entry, a) && Enabled(a, move) && Broken(config, Next(config, a, move), notice)
    ensures move.StoreFails? && ErrorOf(config, move.notice) == ErrorOf(config, notice)
  {
    if move.StoreFails? {
      FailBreaks(config, entry, a, move.notice, move.applied);
    } else {
      NextKeeps(config, entry, a, move);
      SettledNotBroken(config, entry, Next(config, a, move), notice);
    }
  }

  /** Nothing breaks without a failure of the store, and the error is the one of its notice. */
  lemma {:induction false} BrokenByStore(config: Config, entry: Entry, actors: seq<Actor>, moves: seq<Move>, i: nat, notice: Notice)
    requires IsRun(config, entry, actors, moves) && i < |actors| && Broken(config, actors[i], notice)
    ensures FailedAs(config, moves, i, ErrorOf(config, notice))
  {
    if i > 0 {
      var a, move := actors[i - 1], moves[i - 1];
      RunInvariant(config, entry, actors, moves, i - 1);
      if Invariant(config, entry, a) {
        BreaksByStore(config, entry, a, move, notice);
      } else {
        var n := if Broken(config, a, JournalPersistFailed) then JournalPersistFailed else OtherFailure;
        BrokenKeeps(config, a, n, move);
        BrokenByStore(config, entry, actors, moves, i - 1, n);
      }
    }
  }

  /** The end of the actor: failed, or told to fail. */
  ghost predicate Ended(config: Config, a: Actor) {
    a.core.mode.Failed? || Broken(config, a, JournalPersistFailed) || Broken(config, a, OtherFailure)
  }

  lemma EndedNext(config: Config, a: Actor, move: Move)
    requires Ended(config, a) && Enabled(a, move)
    ensures var b := Next(config, a, move); Ended(config, b) && b.core.calls == a.core.calls && b.issued == a.issued
  {
    if Broken(config, a, JournalPersistFailed) {
      BrokenKeeps(config, a, JournalPersistFailed, move);
    } else if Broken(config, a, OtherFailure) {
      BrokenKeeps(config, a, OtherFailure, move);
    }
  }

  /** Once the store has failed, the user's behaviour never comes back and no callback runs. */
  lemma {:induction false} FailureIsFinal(config: Config, entry: Entry, actors: seq<Actor>, moves: seq<Move>, j: nat, i: nat)
    requires IsRun(config, entry, actors, moves) && j < i < |actors| && moves[j].StoreFails?
    ensures Ended(config, actors[i]) && !actors[i].core.mode.Ready?
    ensures actors[i].core.calls == actors[j].core.calls && actors[i].issued == actors[j].issued
  {
    var a, move := actors[i - 1], moves[i - 1];
    assert Enabled(a, move) && actors[i] == Next(config, a, move);
    if j < i - 1 {
      FailureIsFinal(config, entry, actors, moves, j, i - 1);
      EndedNext(config, a, move);
    } else {
      RunInvariant(config, entry, actors, moves, j);
      if Ended(config, a) {
        EndedNext(config, a, move);
      } else {
        FailBreaks(config, entry, a, move.notice, move.applied);
      }
    }
  }

  // ---------- the capacity of the stash ----------

  /** The stash keeps to its capacity, and is full when the actor failed for it. */
  ghost predicate StashFits(config: Config, a: Actor) {
    && |a.stash| <= config.stashCapacity
    && (a.core.mode == Failed(StashFull) ==> |a.stash| == config.stashCapacity)
  }

  lemma {:induction false} StartedMode(config: Config, c: Core, ops: seq<Op>)
    ensures var mode := Start(config, c, ops).mode; !mode.Failed? && !mode.Recovering?
    decreases |ops|
  {
    if ops != [] && ops[0].PersistSnapshot? && !ShouldSave(config, None, ops[0].offer, c.sequenceNr) {
      StartedMode(config, c.(calls := c.calls + [SnapshotArg(ops[0].offer.state)]), ops[1..]);
    }
  }

  /** No signal fills a stash. */
  lemma SignalKeepsError(config: Config, c: Core, signal: Signal, script: seq<Op>)
    ensures OnSignal(config, c, signal, script).core.mode == Failed(StashFull) ==> c.mode == Failed(StashFull)
  {
    forall d: Core, ops: seq<Op> ensures !Start(config, d, ops).mode.Failed? {
      StartedMode(config, d, ops);
    }
  }

  lemma NextFits(config: Config, a: Actor, move: Move)
    requires StashFits(config, a) && Enabled(a, move)
    ensures StashFits(config, Next(config, a, move))
  {
    if move.Deliver? {
      match a.mailbox[0] {
        case User(_) => StartedMode(config, a.core, move.script);
        case FromStore(signal) => SignalKeepsError(config, a.core, signal, move.script);
      }
    }
  }

  /** In every state of every run the stash is within its capacity, and an actor that failed for it has a full one. */
  lemma {:induction false} StashBounded(config: Config, entry: Entry, actors: seq<Actor>, moves: seq<Move>, i: nat)
    requires IsRun(config, entry, actors, moves) && i < |actors|
    ensures |actors[i].stash| <= config.stashCapacity
    ensures actors[i].core.mode == Failed(StashFull) ==> |actors[i].stash| == config.stashCapacity
  {
    if i > 0 {
      StashBounded(config, entry, actors, moves, i - 1);
      NextFits(config, actors[i - 1], moves[i - 1]);
    }
  }

  /**
   A user message that meets a waiting actor ends it exactly when the stash is full; otherwise
   the actor waits on, with the message at the back of the stash and nothing else changed.
   */
  lemma StashedOrFull(config: Config, entry: Entry, actors: seq<Actor>, moves: seq<Move>, i: nat)
    requires IsRun(config, entry, actors, moves) && i < |moves| && moves[i].Deliver?
    requires actors[i].mailbox != [] && actors[i].mailbox[0].User? && !actors[i].core.mode.Ready?
    ensures var a, b := actors[i], actors[i + 1];
            && (b.core.mode.Failed? <==> |a.stash| == config.stashCapacity)
            && b.mailbox == a.mailbox[1..] && b.handled == a.handled && b.issued == a.issued
            && (b.core.mode.Failed? ==> b.stash == a.stash && b.core == a.core.(mode := Failed(StashFull)))
            && (!b.core.mode.Failed? ==> b.stash == a.stash + [a.mailbox[0].message] && b.core == a.core)
  {
    StashBounded(config, entry, actors, moves, i);
    assert Enabled(actors[i], moves[i]) && actors[i + 1] == Next(config, actors[i], moves[i]);
  }

  /**
   Whenever the user's behaviour is back in place, store, sequence number and callbacks
   are what the one-shot form gives, nothing is in flight, and the messages handled
   are the first to have arrived.
   */
  lemma ReadyAsEphemeral(config: Config, entry: Entry, actors: seq<Actor>, moves: seq<Move>, i: nat)
    requires IsRun(config, entry, actors, moves) && i < |actors| && actors[i].core.mode.Ready?
    ensures var a := actors[i];
            && a.core.ToWorld() == RunScript(config, World(entry, entry.sequenceNr, []), a.issued)
            && a.core.commands == [] && Signals(a.mailbox) == []
            && a.stash == [] && a.handled + Users(a.mailbox) == a.arrivals
  {
    RunInvariant(config, entry, actors, moves, i);
  }

  /** A waiting actor always has an acknowledgement to wait for; only a full stash or the store makes it fail. */
  lemma NeverStuck(config: Config, entry: Entry, actors: seq<Actor>, moves: seq<Move>, i: nat)
    requires IsRun(config, entry, actors, moves) && i < |actors| && !actors[i].core.mode.Ready?
    ensures var a := actors[i];
            match a.core.mode
            case Failed(error) => (error.StashFull? && |a.stash| == config.stashCapacity) || FailedAs(config, moves, i, error)
            case _ => a.core.commands != [] || Signals(a.mailbox) != []
  {
    RunInvariant(config, entry, actors, moves, i);
    StashBounded(config, entry, actors, moves, i);
    if Broken(config, actors[i], JournalPersistFailed) {
      BrokenByStore(config, entry, actors, moves, i, JournalPersistFailed);
    } else if Broken(config, actors[i], OtherFailure) {
      BrokenByStore(config, entry, actors, moves, i, OtherFailure);
    }
  }

  lemma CallNeedsLastAck(config: Config, c: Core, signals: seq<Signal>, script: seq<Op>, w: World)
    requires signals != [] && Settles(config, c, signals, w)
    requires OnSignal(config, c, signals[0], script).core.calls != c.calls
    ensures c.commands == [] && signals == [signals[0]]
  {
  }

  /** A callback runs only when the last acknowledgement of its operation is taken from the mailbox. */
  lemma CallbackAfterAcks(config: Config, entry: Entry, actors: seq<Actor>, moves: seq<Move>, i: nat)
    requires IsRun(config, entry, actors, moves) && i < |moves| && !actors[i].core.mode.Ready?
    requires actors[i + 1].core.calls != actors[i].core.calls
    ensures moves[i].Deliver? && actors[i].core.commands == []
    ensures actors[i].mailbox[0].FromStore? && Signals(actors[i].mailbox) == [actors[i].mailbox[0].signal]
  {
    RunInvariant(config, entry, actors, moves, i);
    var a := actors[i];
    assert Enabled(a, moves[i]) && actors[i + 1] == Next(config, a, moves[i]);
    if Ended(config, a) {
      EndedNext(config, a, moves[i]);
    }
    assert moves[i].Deliver? && a.mailbox[0].FromStore?;
    CallNeedsLastAck(config, a.core, Signals(a.mailbox), moves[i].script, Expected(config, entry, a.issued));
  }
}
