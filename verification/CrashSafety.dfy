/**
 Recovery after a crash at any point of the wait chain: whatever was deleted by then,
 the newest snapshot and the events after it give the state that the whole history gives.
 */
module CrashSafety {
  import opened Options
  import opened Retention
  import opened EventStore
  import opened Effector

  /** The history after the operations. */
  ghost function AllEvents(history: seq<Event>, ops: seq<Op>): seq<Event>
    decreases |ops|
  {
    if ops == [] then history
    else AllEvents(if ops[0].PersistSnapshot? then history else history + ops[0].batch.Events(), ops[1..])
  }

  /** Every snapshot offered is the state of the aggregate at that point, and sequence numbers suffice. */
  ghost predicate HonestOps(config: Config, history: seq<Event>, ops: seq<Op>)
    decreases |ops|
  {
    && |history| <= U64_MAX
    && (ops != [] ==>
          match ops[0]
          case Persist(batch) => HonestOps(config, history + batch.Events(), ops[1..])
          case PersistThenSnapshot(batch, offer) =>
            var h := history + batch.Events();
            offer.state == Fold(config, h) && HonestOps(config, h, ops[1..])
          case PersistSnapshot(offer) => offer.state == Fold(config, history) && HonestOps(config, history, ops[1..]))
  }

  lemma {:induction false} HonestAppend(config: Config, history: seq<Event>, a: seq<Op>, b: seq<Op>)
    ensures HonestOps(config, history, a + b) ==> HonestOps(config, history, a) && HonestOps(config, AllEvents(history, a), b)
    ensures AllEvents(history, a + b) == AllEvents(AllEvents(history, a), b)
    decreases |a|
  {
    if a == [] {
      assert a + b == b;
    } else {
      var h := if a[0].PersistSnapshot? then history else history + a[0].batch.Events();
      HonestAppend(config, h, a[1..], b);
      assert (a + b)[0] == a[0] && (a + b)[1..] == a[1..] + b;
    }
  }

  function Rest(mode: Mode): seq<Op> {
    if mode.Recovering? || mode.Ready? || mode.Failed? then [] else mode.rest
  }

  /** Events on their way to the store. */
  ghost function Pending(c: Core): seq<Event> {
    if c.commands != [] && c.commands[0].StoreEvents? then c.commands[0].events else []
  }

  ghost predicate CommandSafe(config: Config, entry: Entry, history: seq<Event>, command: Command) {
    match command
    case Recovery => true
    case StoreEvents(es) => |history| + |es| <= U64_MAX
    case StoreSnapshot(state) => state == Fold(config, history)
    case RemoveEvents(to) => to < NewestNr(entry.snapshots)
    case RemoveSnapshots(to) => to < NewestNr(entry.snapshots)
  }

  /** `history` counts the events on their way to the store, and `all` what the rest of the script adds. */
  ghost predicate ModeSafe(config: Config, c: Core, history: seq<Event>, all: seq<Event>) {
    && HonestOps(config, history, Rest(c.mode)) && AllEvents(history, Rest(c.mode)) == all
    && (c.mode.WaitEventsThenSnapshot? ==> c.mode.offer.state == Fold(config, history))
    && (c.mode.WaitSnapshot? && c.commands == [] ==> NewestNr(c.entry.snapshots) == |history|)
    && (c.mode.WaitDeletedEvents? ==> c.mode.to < NewestNr(c.entry.snapshots))
  }

  /** The store is sound, and stays so with what is on its way to it. */
  ghost predicate StoreSafe(config: Config, c: Core, before: seq<Event>) {
    && Sound(config, c.entry, before + c.logged)
    && |c.commands| <= 1
    && (c.commands != [] ==> CommandSafe(config, c.entry, before + c.logged, c.commands[0]))
  }

  ghost predicate Safe(config: Config, c: Core, before: seq<Event>, all: seq<Event>) {
    StoreSafe(config, c, before) && (!c.mode.Failed? ==> ModeSafe(config, c, before + c.logged + Pending(c), all))
  }

  lemma {:induction false} StartSafe(config: Config, c: Core, before: seq<Event>, ops: seq<Op>)
    requires c.commands == [] && Sound(config, c.entry, before + c.logged) && HonestOps(config, before + c.logged, ops)
    ensures Safe(config, Start(config, c, ops), before, AllEvents(before + c.logged, ops))
    decreases |ops|
  {
    var h := before + c.logged;
    assert h + [] == h;
    if ops != [] {
      match ops[0] {
        case Persist(batch) => assert |h + batch.Events()| <= U64_MAX;
        case PersistThenSnapshot(batch, offer) => assert |h + batch.Events()| <= U64_MAX;
        case PersistSnapshot(offer) =>
          if !ShouldSave(config, None, offer, c.sequenceNr) {
            StartSafe(config, c.(calls := c.calls + [SnapshotArg(offer.state)]), before, ops[1..]);
          }
      }
    }
  }

  lemma CallSafe(config: Config, c: Core, before: seq<Event>, arg: Option<Arg>, rest: seq<Op>, all: seq<Event>)
    requires c.commands == [] && Sound(config, c.entry, before + c.logged) && arg.Some?
    requires HonestOps(config, before + c.logged, rest) && AllEvents(before + c.logged, rest) == all
    ensures Safe(config, Call(config, c, arg, rest).core, before, all)
  {
    StartSafe(config, c.(calls := c.calls + [arg.value]), before, rest);
  }

  /** Each command leaves a store from which recovery still gives the present state. */
  lemma ServeSound(config: Config, c: Core, history: seq<Event>)
    requires c.commands != [] && Sound(config, c.entry, history)
    requires CommandSafe(config, c.entry, history, c.commands[0])
    ensures var d := Serve(config, c).0;
            && Sound(config, d.entry, history + Pending(c))
            && (if c.commands[0].StoreSnapshot? then NewestNr(d.entry.snapshots) == |history|
                else NewestNr(d.entry.snapshots) == NewestNr(c.entry.snapshots))
  {
    assert history + [] == history;
    match c.commands[0] {
      case Recovery =>
      case StoreEvents(es) =>
        PersistSound(config, c.entry, history, es);
        PersistAppends(c.entry, es);
      case StoreSnapshot(state) => SnapshotSound(config, c.entry, history, state);
      case RemoveEvents(to) => DeleteEventsSound(config, c.entry, history, to);
      case RemoveSnapshots(to) => DeleteSnapshotsSound(config, c.entry, history, to);
    }
  }

  lemma ServeLogs(config: Config, c: Core, before: seq<Event>)
    requires c.commands != []
    ensures before + Serve(config, c).0.logged == before + c.logged + Pending(c)
  {
    assert c.logged + [] == c.logged && before + c.logged + [] == before + c.logged;
    assert before + (c.logged + Pending(c)) == before + c.logged + Pending(c);
  }

  lemma ServeSafe(config: Config, c: Core, before: seq<Event>, all: seq<Event>, w: World, signals: seq<Signal>)
    requires c.commands != [] && Safe(config, c, before, all) && (c.mode.Failed? || Settles(config, c, signals, w))
    ensures Safe(config, Serve(config, c).0, before, all)
  {
    ServeSound(config, c, before + c.logged);
    ServeLogs(config, c, before);
    var d := Serve(config, c).0;
    assert before + d.logged + [] == before + d.logged;
    if !c.mode.Failed? {
      WaitingFor(config, c, signals, w);
    }
  }

  /** The command on its way is the one the mode waits for. */
  lemma WaitingFor(config: Config, c: Core, signals: seq<Signal>, w: World)
    requires c.commands != [] && Settles(config, c, signals, w)
    ensures c.mode.WaitSnapshot? <==> c.commands[0].StoreSnapshot?
  {
  }

  lemma PersistedSnapshotSafe(config: Config, c: Core, before: seq<Event>, reply: SnapshotCallback, state: State, rest: seq<Op>, all: seq<Event>)
    requires c.commands == [] && Sound(config, c.entry, before + c.logged) && reply.ArgFor(state).Some?
    requires HonestOps(config, before + c.logged, rest) && AllEvents(before + c.logged, rest) == all
    requires NewestNr(c.entry.snapshots) == |before + c.logged|
    ensures Safe(config, OnPersistedSnapshot(config, c, reply, state, c.entry.sequenceNr, rest).core, before, all)
  {
    var n := c.entry.sequenceNr;
    var d := c.(sequenceNr := n);
    var h := before + c.logged;
    assert h + [] == h;
    if config.retention.DeleteTo(n).Some? {
      BoundBelow(config.retention, n);
    } else {
      CallSafe(config, d, before, reply.ArgFor(state), rest, all);
    }
  }

  lemma EventSignalSafe(config: Config, c: Core, before: seq<Event>, all: seq<Event>, signals: seq<Signal>, script: seq<Op>, w: World)
    requires signals != [] && Settles(config, c, signals, w) && Safe(config, c, before, all)
    requires c.mode.WaitEvents? || c.mode.WaitEventsThenSnapshot?
    ensures Safe(config, OnSignal(config, c, signals[0], script).core, before, all)
  {
    var h := before + c.logged;
    assert h + [] == h;
    var d, arg := c.(sequenceNr := c.entry.sequenceNr), c.mode.callback.ArgFor(signals[0].events);
    if c.mode.WaitEvents? || !ShouldSave(config, Last(signals[0].events), c.mode.offer, c.entry.sequenceNr) {
      CallSafe(config, d, before, arg, c.mode.rest, all);
    }
  }

  lemma SnapshotSignalSafe(config: Config, c: Core, before: seq<Event>, all: seq<Event>, signals: seq<Signal>, script: seq<Op>, w: World)
    requires signals != [] && Settles(config, c, signals, w) && Safe(config, c, before, all)
    requires c.mode.WaitSnapshot? || c.mode.WaitDeletedEvents? || c.mode.WaitDeletedSnapshots?
    ensures Safe(config, OnSignal(config, c, signals[0], script).core, before, all)
  {
    var h := before + c.logged;
    assert h + [] == h;
    match c.mode {
      case WaitSnapshot(reply, rest) =>
        if signals[0].PersistedSnapshot? {
          PersistedSnapshotSafe(config, c, before, reply, signals[0].state, rest, all);
        }
      case WaitDeletedEvents(_, _, _, _) =>
      case WaitDeletedSnapshots(reply, state, to, rest) =>
        if signals[0].DeletedSnapshots? {
          CallSafe(config, c, before, reply.ArgFor(state), rest, all);
        }
    }
  }

  lemma SignalSafe(config: Config, c: Core, before: seq<Event>, all: seq<Event>, signals: seq<Signal>, script: seq<Op>, w: World)
    requires signals != [] && Settles(config, c, signals, w) && Safe(config, c, before, all)
    requires c.mode.Recovering? && signals[0].Recovered? ==> HonestOps(config, all, script)
    ensures var total := if c.mode.Recovering? && signals[0].Recovered? then AllEvents(all, script) else all;
            Safe(config, OnSignal(config, c, signals[0], script).core, before, total)
  {
    SettledNotFailed(config, c, signals, w);
    if c.mode.WaitEvents? || c.mode.WaitEventsThenSnapshot? {
      EventSignalSafe(config, c, before, all, signals, script, w);
    } else if !c.mode.Recovering? {
      SnapshotSignalSafe(config, c, before, all, signals, script, w);
    } else if signals[0].Recovered? {
      var h := before + c.logged;
      assert h + [] == h;
      StartSafe(config, c.(sequenceNr := c.entry.sequenceNr), before, script);
    }
  }

  // ---------- runs ----------

  ghost predicate ActorSafe(config: Config, before: seq<Event>, a: Actor) {
    StoreSafe(config, a.core, before) && (Ended(config, a) || Safe(config, a.core, before, AllEvents(before, a.issued)))
  }

  /** A failing store too has had the effect of its command, or none. */
  lemma FailSafe(config: Config, c: Core, before: seq<Event>, notice: Notice, applied: bool)
    requires c.commands != [] && StoreSafe(config, c, before)
    ensures StoreSafe(config, Fail(config, c, notice, applied).0, before)
  {
    if applied {
      ServeSound(config, c, before + c.logged);
      ServeLogs(config, c, before);
    }
  }

  lemma EndedSafe(config: Config, before: seq<Event>, a: Actor, move: Move)
    requires Ended(config, a) && ActorSafe(config, before, a) && Enabled(a, move)
    ensures ActorSafe(config, before, Next(config, a, move))
  {
    EndedNext(config, a, move);
    if move.Store? {
      ServeSound(config, a.core, before + a.core.logged);
      ServeLogs(config, a.core, before);
    } else if move.StoreFails? {
      FailSafe(config, a.core, before, move.notice, move.applied);
    } else {
      EndedCore(config, a, move);
    }
  }

  /** Messages change no more than the mode of an actor that has ended. */
  lemma EndedCore(config: Config, a: Actor, move: Move)
    requires Ended(config, a) && Enabled(a, move) && !move.Store? && !move.StoreFails?
    ensures Next(config, a, move).core == a.core.(mode := Next(config, a, move).core.mode)
  {
    if Broken(config, a, JournalPersistFailed) {
      BrokenKeeps(config, a, JournalPersistFailed, move);
    } else if Broken(config, a, OtherFailure) {
      BrokenKeeps(config, a, OtherFailure, move);
    }
  }

  lemma NextSafe(config: Config, entry: Entry, before: seq<Event>, a: Actor, move: Move, b: Actor)
    requires Invariant(config, entry, a) && !Ended(config, a) && ActorSafe(config, before, a)
    requires Enabled(a, move) && b == Next(config, a, move) && HonestOps(config, before, b.issued)
    ensures ActorSafe(config, before, b)
  {
    var w := Expected(config, entry, a.issued);
    match move {
      case Arrive(_) =>
      case Store => ServeSafe(config, a.core, before, AllEvents(before, a.issued), w, Signals(a.mailbox));
      case StoreFails(notice, applied) =>
        FailSafe(config, a.core, before, notice, applied);
        FailBreaks(config, entry, a, notice, applied);
      case Deliver(script) =>
        HonestAppend(config, before, a.issued, script);
        if a.mailbox[0].User? {
          ReadyIdle(config, entry, a);
          UserSafe(config, before, a, script);
        } else {
          SignalTaken(config, a, script);
          SignalSafe(config, a.core, before, AllEvents(before, a.issued), Signals(a.mailbox), script, w);
        }
    }
  }

  lemma UserSafe(config: Config, before: seq<Event>, a: Actor, script: seq<Op>)
    requires ActorSafe(config, before, a) && !Ended(config, a) && Enabled(a, Deliver(script)) && a.mailbox[0].User?
    requires a.core.mode.Ready? ==> a.core.commands == []
    requires a.core.mode.Ready? ==> HonestOps(config, AllEvents(before, a.issued), script)
    requires AllEvents(before, a.issued + script) == AllEvents(AllEvents(before, a.issued), script)
    ensures ActorSafe(config, before, Next(config, a, Deliver(script)))
  {
    if a.core.mode.Ready? {
      var h := before + a.core.logged;
      assert h + [] == h;
      StartSafe(config, a.core, before, script);
    }
  }

  lemma ReadyIdle(config: Config, entry: Entry, a: Actor)
    requires Invariant(config, entry, a)
    ensures a.core.mode.Ready? ==> a.core.commands == []
  {
  }

  /** Operations are only ever added, so a part of an honest script is honest. */
  lemma IssuedHonest(config: Config, before: seq<Event>, a: Actor, move: Move, b: Actor)
    requires Enabled(a, move) && b == Next(config, a, move) && HonestOps(config, before, b.issued)
    ensures HonestOps(config, before, a.issued)
  {
    if move.Deliver? {
      HonestAppend(config, before, a.issued, move.script);
    }
  }

  lemma InitialSafe(config: Config, entry: Entry, before: seq<Event>)
    requires Sound(config, entry, before)
    ensures ActorSafe(config, before, Initial(entry))
  {
    assert before + [] == before && before + [] + [] == before;
  }

  lemma {:induction false} RunSafe(config: Config, entry: Entry, before: seq<Event>, actors: seq<Actor>, moves: seq<Move>, i: nat)
    requires IsRun(config, entry, actors, moves) && i < |actors|
    requires Sound(config, entry, before) && HonestOps(config, before, actors[i].issued)
    ensures ActorSafe(config, before, actors[i])
  {
    if i == 0 {
      InitialSafe(config, entry, before);
    } else {
      assert Enabled(actors[i - 1], moves[i - 1]) && actors[i] == Next(config, actors[i - 1], moves[i - 1]);
      IssuedHonest(config, before, actors[i - 1], moves[i - 1], actors[i]);
      RunSafe(config, entry, before, actors, moves, i - 1);
      RunInvariant(config, entry, actors, moves, i - 1);
      if Ended(config, actors[i - 1]) {
        EndedSafe(config, before, actors[i - 1], moves[i - 1]);
      } else {
        NextSafe(config, entry, before, actors[i - 1], moves[i - 1], actors[i]);
      }
    }
  }

  /**
   In every state of every run, also between two deletions and after a failure of the actor
   or of the store, recovery gives the fold of all events the store has taken, with their number.
   */
  lemma EveryCrashRecovers(config: Config, entry: Entry, before: seq<Event>, actors: seq<Actor>, moves: seq<Move>, i: nat)
    requires IsRun(config, entry, actors, moves) && i < |actors|
    requires Sound(config, entry, before) && HonestOps(config, before, actors[i].issued)
    ensures var history := before + actors[i].core.logged;
            Recover(config, actors[i].core.entry) == (Fold(config, history), |history|)
  {
    RunSafe(config, entry, before, actors, moves, i);
    RecoverIsFold(config, actors[i].core.entry, before + actors[i].core.logged);
  }

  /** What recovery hands to the user at the start of a run is the fold of the whole history, with its length. */
  lemma RecoveryHandsFold(config: Config, entry: Entry, before: seq<Event>, actors: seq<Actor>, moves: seq<Move>, i: nat)
    requires IsRun(config, entry, actors, moves) && i < |actors| && actors[i].core.mode.Recovering?
    requires Sound(config, entry, before)
    ensures forall signal <- Signals(actors[i].mailbox) :: signal.Recovered? ==>
              signal.state == Fold(config, before) && signal.sequenceNr == |before|
  {
    RunInvariant(config, entry, actors, moves, i);
    StillRecovering(config, entry, actors, moves, i);
    RecoverIsFold(config, entry, before);
  }

  /** Until recovery is done nothing was stored. */
  lemma {:induction false} StillRecovering(config: Config, entry: Entry, actors: seq<Actor>, moves: seq<Move>, i: nat)
    requires IsRun(config, entry, actors, moves) && i < |actors| && actors[i].core.mode.Recovering?
    ensures actors[i].core.entry == entry && actors[i].issued == []
    ensures actors[i].core.commands == [] || actors[i].core.commands == [Recovery]
  {
    if i > 0 {
      var a, move := actors[i - 1], moves[i - 1];
      assert Enabled(a, move) && actors[i] == Next(config, a, move);
      RecoveringBefore(config, a, move);
      StillRecovering(config, entry, actors, moves, i - 1);
    }
  }

  /** No step leads back into recovery. */
  lemma RecoveringBefore(config: Config, a: Actor, move: Move)
    requires Enabled(a, move) && Next(config, a, move).core.mode.Recovering?
    ensures a.core.mode.Recovering?
    ensures move.Deliver? ==> Next(config, a, move).core == a.core && Next(config, a, move).issued == a.issued
  {
    forall d: Core, ops: seq<Op> ensures !Start(config, d, ops).mode.Recovering? {
      StartedMode(config, d, ops);
    }
  }

  /** A ready actor has logged exactly what its operations persisted. */
  lemma ReadyLogged(config: Config, entry: Entry, before: seq<Event>, actors: seq<Actor>, moves: seq<Move>, i: nat)
    requires IsRun(config, entry, actors, moves) && i < |actors| && actors[i].core.mode.Ready?
    requires Sound(config, entry, before) && HonestOps(config, before, actors[i].issued)
    ensures before + actors[i].core.logged == AllEvents(before, actors[i].issued)
  {
    RunSafe(config, entry, before, actors, moves, i);
    RunInvariant(config, entry, actors, moves, i);
    var h := before + actors[i].core.logged;
    assert h + [] == h;
  }

  /** A store that was never used is sound. */
  lemma EmptySound(config: Config)
    ensures Sound(config, Entry(0, [], []), [])
  {
  }
}
