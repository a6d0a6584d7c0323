/**
 The wait chain always comes to its end: every acknowledgement that is sent or taken uses
 up work, and user messages that arrive meanwhile add none.
 */
module EffectorProgress {
  import opened Options
  import opened Retention
  import opened EventStore
  import opened Effector

  /** More than the steps any operation of a script can still need. */
  const PER_OP: nat := 20

  /** A bound on the commands and signals still to be handled before the script is done. */
  ghost function Work(c: Core, signals: seq<Signal>): nat {
    3 * |c.commands| + |signals| +
    match c.mode
    case WaitEvents(_, rest) => PER_OP * |rest| + 5
    case WaitEventsThenSnapshot(_, _, rest) => PER_OP * |rest| + 15
    case WaitSnapshot(_, rest) => PER_OP * |rest| + 10
    case WaitDeletedEvents(_, _, _, rest) => PER_OP * |rest| + 6
    case WaitDeletedSnapshots(_, _, _, rest) => PER_OP * |rest| + 3
    case _ => 0
  }

  predicate Waits(mode: Mode) { !mode.Recovering? && !mode.Ready? && !mode.Failed? }

  lemma {:induction false} StartWork(config: Config, c: Core, ops: seq<Op>)
    requires c.commands == []
    ensures Work(Start(config, c, ops), []) <= PER_OP * |ops|
    decreases |ops|
  {
    if ops != [] && ops[0].PersistSnapshot? && !ShouldSave(config, None, ops[0].offer, c.sequenceNr) {
      StartWork(config, c.(calls := c.calls + [SnapshotArg(ops[0].offer.state)]), ops[1..]);
    }
  }

  lemma CallWork(config: Config, c: Core, arg: Option<Arg>, rest: seq<Op>)
    requires c.commands == [] && arg.Some?
    ensures Work(Call(config, c, arg, rest).core, []) <= PER_OP * |rest|
  {
    StartWork(config, c.(calls := c.calls + [arg.value]), rest);
  }

  lemma ServeWork(config: Config, c: Core, signals: seq<Signal>)
    requires c.commands != []
    ensures var (d, acks) := Serve(config, c); Work(d, signals + acks) < Work(c, signals)
  {
  }

  /** Each signal that is taken brings the chain nearer to its end. */
  lemma SignalWork(config: Config, c: Core, signals: seq<Signal>, script: seq<Op>, w: World)
    requires signals != [] && Settles(config, c, signals, w) && Waits(c.mode)
    ensures Work(OnSignal(config, c, signals[0], script).core, signals[1..]) < Work(c, signals)
  {
    var d := c.(sequenceNr := c.entry.sequenceNr);
    match c.mode {
      case WaitEvents(callback, rest) => CallWork(config, d, callback.ArgFor(signals[0].events), rest);
      case WaitEventsThenSnapshot(callback, offer, rest) =>
        if !ShouldSave(config, Last(signals[0].events), offer, d.sequenceNr) {
          CallWork(config, d, callback.ArgFor(signals[0].events), rest);
        }
      case WaitSnapshot(reply, rest) =>
        if signals[0].PersistedSnapshot? && config.retention.DeleteTo(d.sequenceNr).None? {
          CallWork(config, d, reply.ArgFor(signals[0].state), rest);
        }
      case WaitDeletedSnapshots(reply, state, _, rest) =>
        if signals[0].DeletedSnapshots? {
          CallWork(config, c, reply.ArgFor(state), rest);
        }
      case _ =>
    }
  }

  ghost function Left(a: Actor): nat { Work(a.core, Signals(a.mailbox)) }

  lemma FailureWork(config: Config, a: Actor, notice: Notice, applied: bool)
    requires Enabled(a, StoreFails(notice, applied))
    ensures Left(Next(config, a, StoreFails(notice, applied))) < Left(a)
  {
    FailMail(config, a, notice, applied);
  }

  lemma BrokenWork(config: Config, a: Actor, notice: Notice, script: seq<Op>)
    requires Broken(config, a, notice) && Enabled(a, Deliver(script)) && a.mailbox[0].FromStore? && Waits(a.core.mode)
    ensures Left(Next(config, a, Deliver(script))) < Left(a)
  {
    SignalTaken(config, a, script);
    BrokenSignal(config, a, notice, script);
  }

  lemma SettledWork(config: Config, entry: Entry, a: Actor, script: seq<Op>)
    requires Invariant(config, entry, a) && Enabled(a, Deliver(script)) && a.mailbox[0].FromStore? && Waits(a.core.mode)
    ensures Left(Next(config, a, Deliver(script))) < Left(a)
  {
    var signals := Signals(a.mailbox);
    SignalTaken(config, a, script);
    assert signals[1..] == Signals(Next(config, a, Deliver(script)).mailbox);
    SignalWork(config, a.core, signals, script, Expected(config, entry, a.issued));
  }

  /**
   A waiting effector makes progress with every step of the store, failing or not, and every
   signal it takes, and loses none to the user messages that come in between.
   */
  lemma StepsUseWork(config: Config, entry: Entry, a: Actor, move: Move)
    requires Reliable(config, entry, a) && Enabled(a, move) && Waits(a.core.mode)
    ensures var b := Next(config, a, move);
            if move.Arrive? || (move.Deliver? && a.mailbox[0].User?) then Left(b) <= Left(a) else Left(b) < Left(a)
  {
    match move {
      case Arrive(m) => SignalsAppend(a.mailbox, [User(m)]);
      case Store =>
        StoreMail(config, a);
        ServeWork(config, a.core, Signals(a.mailbox));
      case StoreFails(notice, applied) => FailureWork(config, a, notice, applied);
      case Deliver(script) =>
        if a.mailbox[0].FromStore? {
          if Broken(config, a, JournalPersistFailed) {
            BrokenWork(config, a, JournalPersistFailed, script);
          } else if Broken(config, a, OtherFailure) {
            BrokenWork(config, a, OtherFailure, script);
          } else {
            SettledWork(config, entry, a, script);
          }
        }
    }
  }
}
