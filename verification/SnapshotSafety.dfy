/**
 Every snapshot the retention criteria keep is a place to recover from, not only the newest:
 the log never loses events that a kept snapshot needs.
 */
module SnapshotSafety {
  import opened Options
  import opened Retention
  import opened EventStore
  import opened Effector
  import opened CrashSafety

  /** The deletion bound that the newest snapshot sets. */
  function Floor(config: Config, snapshots: seq<Snapshot>): nat {
    match config.retention.DeleteTo(NewestNr(snapshots))
    case None => 0
    case Some(to) => to
  }

  /** No event above the bound is gone. */
  ghost predicate Bounded(config: Config, entry: Entry, history: seq<Event>) {
    Gone(entry, history) <= Floor(config, entry.snapshots)
  }

  /** A deletion under way, whose snapshots may go before or after their events. */
  function Deleting(c: Core): Option<U64> {
    match c.mode
    case WaitDeletedEvents(_, _, to, _) => Some(to)
    case WaitDeletedSnapshots(_, _, to, _) => if c.commands == [] then None else Some(to)
    case _ => None
  }

  /**
   Every snapshot reaches the start of the log, save those that are being deleted and those
   that did not reach it when `gone` events were gone.
   */
  ghost predicate Reaching(c: Core, history: seq<Event>, gone: nat) {
    && gone <= Gone(c.entry, history)
    && forall s <- c.entry.snapshots :: gone <= s.sequenceNr ==>
         Gone(c.entry, history) <= s.sequenceNr || (Deleting(c).Some? && s.sequenceNr <= Deleting(c).value)
  }

  ghost predicate Kept(config: Config, c: Core, history: seq<Event>) {
    && Bounded(config, c.entry, history)
    && (c.commands != [] && c.commands[0].RemoveEvents? ==> c.commands[0].to <= Floor(config, c.entry.snapshots))
  }

  // ---------- what the store does ----------

  lemma FloorGrows(config: Config, old_: seq<Snapshot>, new_: seq<Snapshot>)
    requires NewestNr(old_) <= NewestNr(new_)
    ensures Floor(config, old_) <= Floor(config, new_)
  {
    if config.retention.DeleteTo(NewestNr(old_)).Some? {
      BoundMonotone(config.retention, NewestNr(old_), NewestNr(new_));
    }
  }

  lemma DeletedEventsGone(entry: Entry, history: seq<Event>, to: U64)
    requires |entry.events| <= |history| && Numbered(entry.events, history, Gone(entry, history))
    ensures var g := Gone(DeleteEvents(entry, to), history);
            Gone(entry, history) <= g && (g == Gone(entry, history) || g <= to)
  {
    EventsAfterNumbered(entry.events, history, Gone(entry, history), to);
  }

  /** Each command keeps the log within the bound of the newest snapshot. */
  lemma ServeKept(config: Config, c: Core, history: seq<Event>)
    requires c.commands != [] && |c.commands| == 1 && Kept(config, c, history)
    requires Sound(config, c.entry, history) && CommandSafe(config, c.entry, history, c.commands[0])
    ensures Kept(config, Serve(config, c).0, history + Pending(c))
  {
    var d := Serve(config, c).0;
    assert history + [] == history;
    ServeSound(config, c, history);
    NewestIsLargest(c.entry.snapshots);
    match c.commands[0] {
      case StoreEvents(es) => PersistCounts(c.entry, es);
      case StoreSnapshot(state) => FloorGrows(config, c.entry.snapshots, d.entry.snapshots);
      case RemoveEvents(to) => DeletedEventsGone(c.entry, history, to);
      case _ =>
    }
  }

  /** The command on its way is the one the mode waits for, with the same bound. */
  lemma DeletionAwaited(config: Config, c: Core, signals: seq<Signal>, w: World)
    requires c.commands != [] && Settles(config, c, signals, w)
    ensures |c.commands| == 1
    ensures c.commands[0].RemoveEvents? ==> c.mode.WaitDeletedEvents? && c.mode.to == c.commands[0].to
    ensures c.commands[0].RemoveSnapshots? <==> c.mode.WaitDeletedSnapshots?
    ensures c.commands[0].RemoveSnapshots? ==> c.mode.to == c.commands[0].to
  {
  }

  lemma ServeReaching(config: Config, c: Core, history: seq<Event>, gone: nat, signals: seq<Signal>, w: World)
    requires c.commands != [] && Settles(config, c, signals, w) && Reaching(c, history, gone)
    requires Sound(config, c.entry, history) && CommandSafe(config, c.entry, history, c.commands[0])
    ensures Reaching(Serve(config, c).0, history + Pending(c), gone)
  {
    var d := Serve(config, c).0;
    assert history + [] == history;
    DeletionAwaited(config, c, signals, w);
    match c.commands[0] {
      case Recovery =>
      case StoreEvents(es) => PersistCounts(c.entry, es);
      case StoreSnapshot(state) =>
      case RemoveEvents(to) => DeletedEventsGone(c.entry, history, to);
      case RemoveSnapshots(to) => SnapshotsAfterKeeps(c.entry.snapshots, to);
    }
  }

  // ---------- what the effector does ----------

  lemma {:induction false} StartOnly(config: Config, c: Core, ops: seq<Op>)
    requires c.commands == []
    ensures var d := Start(config, c, ops);
            && d.entry == c.entry && d.logged == c.logged && Deleting(d) == None
            && (d.commands != [] ==> d.commands[0].StoreEvents? || d.commands[0].StoreSnapshot?)
    decreases |ops|
  {
    if ops != [] && ops[0].PersistSnapshot? && !ShouldSave(config, None, ops[0].offer, c.sequenceNr) {
      StartOnly(config, c.(calls := c.calls + [SnapshotArg(ops[0].offer.state)]), ops[1..]);
    }
  }

  lemma PersistedSnapshotKept(config: Config, c: Core, reply: SnapshotCallback, state: State, rest: seq<Op>, history: seq<Event>, gone: nat)
    requires c.commands == [] && Bounded(config, c.entry, history) && reply.ArgFor(state).Some?
    requires Deleting(c) == None && NewestNr(c.entry.snapshots) == c.entry.sequenceNr
    ensures var d := OnPersistedSnapshot(config, c, reply, state, c.entry.sequenceNr, rest).core;
            Kept(config, d, history) && (Reaching(c, history, gone) ==> Reaching(d, history, gone)) && d.entry == c.entry
  {
    var d := c.(sequenceNr := c.entry.sequenceNr);
    if config.retention.DeleteTo(c.entry.sequenceNr).None? {
      StartOnly(config, d.(calls := d.calls + [reply.ArgFor(state).value]), rest);
    }
  }

  lemma CallKept(config: Config, c: Core, arg: Option<Arg>, rest: seq<Op>, history: seq<Event>, gone: nat)
    requires c.commands == [] && Bounded(config, c.entry, history) && arg.Some? && Deleting(c) == None
    ensures var d := Call(config, c, arg, rest).core;
            Kept(config, d, history) && (Reaching(c, history, gone) ==> Reaching(d, history, gone)) && d.entry == c.entry
  {
    StartOnly(config, c.(calls := c.calls + [arg.value]), rest);
  }

  /** What both halves of the chain keep when a signal is taken. */
  ghost predicate KeptOn(config: Config, c: Core, d: Core, history: seq<Event>, gone: nat) {
    Kept(config, d, history) && (Reaching(c, history, gone) ==> Reaching(d, history, gone))
  }

  lemma EventSignalKept(config: Config, c: Core, history: seq<Event>, gone: nat, signals: seq<Signal>, script: seq<Op>, w: World)
    requires signals != [] && Settles(config, c, signals, w) && Kept(config, c, history)
    requires c.mode.Recovering? || c.mode.WaitEvents? || c.mode.WaitEventsThenSnapshot?
    ensures KeptOn(config, c, OnSignal(config, c, signals[0], script).core, history, gone)
  {
    var n := c.entry.sequenceNr;
    var d := c.(sequenceNr := n);
    match c.mode {
      case Recovering =>
        if signals[0].Recovered? {
          StartOnly(config, d, script);
        }
      case WaitEvents(callback, rest) => CallKept(config, d, callback.ArgFor(signals[0].events), rest, history, gone);
      case WaitEventsThenSnapshot(callback, offer, rest) =>
        if !ShouldSave(config, Last(signals[0].events), offer, n) {
          CallKept(config, d, callback.ArgFor(signals[0].events), rest, history, gone);
        }
    }
  }

  lemma SnapshotSignalKept(config: Config, c: Core, history: seq<Event>, gone: nat, signals: seq<Signal>, script: seq<Op>, w: World)
    requires signals != [] && Settles(config, c, signals, w) && Kept(config, c, history)
    requires c.mode.WaitSnapshot? ==> NewestNr(c.entry.snapshots) == c.entry.sequenceNr
    requires c.mode.WaitSnapshot? || c.mode.WaitDeletedEvents? || c.mode.WaitDeletedSnapshots?
    ensures KeptOn(config, c, OnSignal(config, c, signals[0], script).core, history, gone)
  {
    match c.mode {
      case WaitSnapshot(reply, rest) =>
        if signals[0].PersistedSnapshot? {
          PersistedSnapshotKept(config, c, reply, signals[0].state, rest, history, gone);
        }
      case WaitDeletedEvents(_, _, _, _) =>
      case WaitDeletedSnapshots(reply, state, to, rest) =>
        if signals[0].DeletedSnapshots? {
          CallKept(config, c, reply.ArgFor(state), rest, history, gone);
        }
    }
  }

  lemma SignalKept(config: Config, c: Core, before: seq<Event>, all: seq<Event>, gone: nat, signals: seq<Signal>, script: seq<Op>, w: World)
    requires signals != [] && Settles(config, c, signals, w) && Safe(config, c, before, all)
    requires Kept(config, c, before + c.logged)
    ensures var d := OnSignal(config, c, signals[0], script).core;
            KeptOn(config, c, d, before + c.logged, gone) && d.logged == c.logged
  {
    var h := before + c.logged;
    assert h + [] == h;
    SettledNotFailed(config, c, signals, w);
    SignalLogs(config, c, signals[0], script);
    if c.mode.Recovering? || c.mode.WaitEvents? || c.mode.WaitEventsThenSnapshot? {
      EventSignalKept(config, c, h, gone, signals, script, w);
    } else {
      SnapshotSignalKept(config, c, h, gone, signals, script, w);
    }
  }

  lemma {:induction false} StartLogs(config: Config, c: Core, ops: seq<Op>)
    ensures Start(config, c, ops).logged == c.logged && Start(config, c, ops).entry == c.entry
    decreases |ops|
  {
    if ops != [] && ops[0].PersistSnapshot? && !ShouldSave(config, None, ops[0].offer, c.sequenceNr) {
      StartLogs(config, c.(calls := c.calls + [SnapshotArg(ops[0].offer.state)]), ops[1..]);
    }
  }

  lemma SignalLogs(config: Config, c: Core, signal: Signal, script: seq<Op>)
    ensures OnSignal(config, c, signal, script).core.logged == c.logged
  {
    forall d: Core, ops: seq<Op> ensures Start(config, d, ops).logged == d.logged {
      StartLogs(config, d, ops);
    }
  }

  // ---------- runs ----------

  /** A store from which a run may start: sound, and within the bound of its newest snapshot. */
  ghost predicate Startable(config: Config, entry: Entry, before: seq<Event>) {
    Sound(config, entry, before) && Bounded(config, entry, before)
  }

  ghost predicate ActorKept(config: Config, before: seq<Event>, gone: nat, a: Actor) {
    var h := before + a.core.logged;
    Kept(config, a.core, h) && (!Ended(config, a) ==> Reaching(a.core, h, gone))
  }

  lemma NextKept(config: Config, entry: Entry, before: seq<Event>, gone: nat, a: Actor, move: Move, b: Actor)
    requires Invariant(config, entry, a) && !Ended(config, a) && ActorSafe(config, before, a) && ActorKept(config, before, gone, a)
    requires Enabled(a, move) && b == Next(config, a, move)
    ensures ActorKept(config, before, gone, b)
  {
    match move {
      case Arrive(m) =>
      case Store => StoreKept(config, entry, before, gone, a);
      case StoreFails(notice, applied) =>
        FailKept(config, before, a.core, notice, applied);
        FailBreaks(config, entry, a, notice, applied);
      case Deliver(script) =>
        if a.mailbox[0].User? {
          UserKept(config, entry, before, gone, a, script);
        } else {
          DeliveryKept(config, entry, before, gone, a, script);
        }
    }
  }

  lemma UserKept(config: Config, entry: Entry, before: seq<Event>, gone: nat, a: Actor, script: seq<Op>)
    requires Invariant(config, entry, a) && !Ended(config, a) && ActorKept(config, before, gone, a)
    requires Enabled(a, Deliver(script)) && a.mailbox[0].User?
    ensures ActorKept(config, before, gone, Next(config, a, Deliver(script)))
  {
    if a.core.mode.Ready? {
      ReadyIdle(config, entry, a);
      StartOnly(config, a.core, script);
    }
  }

  lemma DeliveryKept(config: Config, entry: Entry, before: seq<Event>, gone: nat, a: Actor, script: seq<Op>)
    requires Invariant(config, entry, a) && !Ended(config, a) && ActorSafe(config, before, a) && ActorKept(config, before, gone, a)
    requires Enabled(a, Deliver(script)) && a.mailbox[0].FromStore?
    ensures ActorKept(config, before, gone, Next(config, a, Deliver(script)))
  {
    SignalTaken(config, a, script);
    SignalKept(config, a.core, before, AllEvents(before, a.issued), gone, Signals(a.mailbox), script, Expected(config, entry, a.issued));
  }

  lemma StoreKept(config: Config, entry: Entry, before: seq<Event>, gone: nat, a: Actor)
    requires Invariant(config, entry, a) && !Ended(config, a) && ActorSafe(config, before, a) && ActorKept(config, before, gone, a)
    requires Enabled(a, Store)
    ensures ActorKept(config, before, gone, Next(config, a, Store))
  {
    var c, h := a.core, before + a.core.logged;
    ServeKept(config, c, h);
    ServeLogs(config, c, before);
    ServeReaching(config, c, h, gone, Signals(a.mailbox), Expected(config, entry, a.issued));
  }

  lemma FailKept(config: Config, before: seq<Event>, c: Core, notice: Notice, applied: bool)
    requires c.commands != [] && StoreSafe(config, c, before) && Kept(config, c, before + c.logged)
    ensures var d := Fail(config, c, notice, applied).0; Kept(config, d, before + d.logged)
  {
    ServeKept(config, c, before + c.logged);
    ServeLogs(config, c, before);
  }

  /** The store of an actor that has ended may still take what was on its way. */
  lemma EndedKept(config: Config, before: seq<Event>, gone: nat, a: Actor, move: Move)
    requires Ended(config, a) && ActorSafe(config, before, a) && ActorKept(config, before, gone, a) && Enabled(a, move)
    ensures ActorKept(config, before, gone, Next(config, a, move))
  {
    EndedNext(config, a, move);
    match move {
      case Store =>
        ServeKept(config, a.core, before + a.core.logged);
        ServeLogs(config, a.core, before);
      case StoreFails(notice, applied) => FailKept(config, before, a.core, notice, applied);
      case _ => EndedCore(config, a, move);
    }
  }

  lemma KeptOnward(config: Config, entry: Entry, before: seq<Event>, gone: nat, actors: seq<Actor>, moves: seq<Move>, i: nat)
    requires IsRun(config, entry, actors, moves) && i < |moves| && ActorKept(config, before, gone, actors[i])
    requires Sound(config, entry, before) && HonestOps(config, before, actors[i].issued)
    ensures ActorKept(config, before, gone, actors[i + 1])
  {
    RunSafe(config, entry, before, actors, moves, i);
    RunInvariant(config, entry, actors, moves, i);
    assert Enabled(actors[i], moves[i]) && actors[i + 1] == Next(config, actors[i], moves[i]);
    if Ended(config, actors[i]) {
      EndedKept(config, before, gone, actors[i], moves[i]);
    } else {
      NextKept(config, entry, before, gone, actors[i], moves[i], actors[i + 1]);
    }
  }

  lemma StartKept(config: Config, entry: Entry, before: seq<Event>)
    requires Startable(config, entry, before)
    ensures ActorKept(config, before, Gone(entry, before), Initial(entry))
  {
    assert before + [] == before;
  }

  lemma {:induction false} RunKept(config: Config, entry: Entry, before: seq<Event>, actors: seq<Actor>, moves: seq<Move>, i: nat)
    requires IsRun(config, entry, actors, moves) && i < |actors|
    requires Startable(config, entry, before) && HonestOps(config, before, actors[i].issued)
    ensures ActorKept(config, before, Gone(entry, before), actors[i])
  {
    if i == 0 {
      StartKept(config, entry, before);
    } else {
      IssuedHonest(config, before, actors[i - 1], moves[i - 1], actors[i]);
      RunKept(config, entry, before, actors, moves, i - 1);
      KeptOnward(config, entry, before, Gone(entry, before), actors, moves, i - 1);
    }
  }

  /**
   In every state of every run, also between two deletions and after a failure, each stored
   snapshot above the deletion bound gives the fold of all events the store has taken.
   */
  lemma SnapshotsAboveBoundRecover(
    config: Config, entry: Entry, before: seq<Event>, actors: seq<Actor>, moves: seq<Move>, i: nat, snapshot: Snapshot)
    requires IsRun(config, entry, actors, moves) && i < |actors|
    requires Startable(config, entry, before) && HonestOps(config, before, actors[i].issued)
    requires snapshot in actors[i].core.entry.snapshots
    requires snapshot.sequenceNr >= Floor(config, actors[i].core.entry.snapshots)
    ensures var history := before + actors[i].core.logged;
            RecoverFrom(config, actors[i].core.entry, Some(snapshot)) == (Fold(config, history), |history|)
  {
    RunKept(config, entry, before, actors, moves, i);
    RunSafe(config, entry, before, actors, moves, i);
    AnySnapshotRecovers(config, actors[i].core.entry, before + actors[i].core.logged, Some(snapshot));
  }

  /**
   And whenever the user's behaviour is back in place, a stored snapshot reaches the log exactly
   when it is not one of those that did not reach it at the start; it then gives the whole fold.
   */
  lemma ReadySnapshotsRecover(
    config: Config, entry: Entry, before: seq<Event>, actors: seq<Actor>, moves: seq<Move>, i: nat, snapshot: Snapshot)
    requires IsRun(config, entry, actors, moves) && i < |actors| && actors[i].core.mode.Ready?
    requires Startable(config, entry, before) && HonestOps(config, before, actors[i].issued)
    requires snapshot in actors[i].core.entry.snapshots
    ensures var now, history := actors[i].core.entry, before + actors[i].core.logged;
            && (Gone(now, history) <= snapshot.sequenceNr <==> Gone(entry, before) <= snapshot.sequenceNr)
            && (Gone(entry, before) <= snapshot.sequenceNr ==>
                  RecoverFrom(config, now, Some(snapshot)) == (Fold(config, history), |history|))
  {
    RunKept(config, entry, before, actors, moves, i);
    RunSafe(config, entry, before, actors, moves, i);
    if Gone(entry, before) <= snapshot.sequenceNr {
      AnySnapshotRecovers(config, actors[i].core.entry, before + actors[i].core.logged, Some(snapshot));
    }
  }

  /** What any run leaves behind, wherever it stopped, is a store to start from again. */
  lemma CrashStartable(config: Config, entry: Entry, before: seq<Event>, actors: seq<Actor>, moves: seq<Move>, i: nat)
    requires IsRun(config, entry, actors, moves) && i < |actors|
    requires Startable(config, entry, before) && HonestOps(config, before, actors[i].issued)
    ensures Startable(config, actors[i].core.entry, before + actors[i].core.logged)
  {
    RunKept(config, entry, before, actors, moves, i);
    RunSafe(config, entry, before, actors, moves, i);
  }
}
