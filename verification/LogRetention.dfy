/**
 What the retention criteria leave behind, for every run: which snapshots were taken, how far
 the largest bound they ask for reaches, and with it exactly which snapshots and, where
 the setting says so, which events are gone.
 */
module LogRetention {
  import opened Options
  import opened Retention
  import opened EventStore
  import opened Effector
  import opened CrashSafety

  function Larger(a: nat, b: nat): nat { if a < b then b else a }

  // ---------- the reference: what the operations ask for ----------

  function Events(op: Op): seq<Event> { if op.PersistSnapshot? then [] else op.batch.Events() }

  function Added(ops: seq<Op>): nat {
    if ops == [] then 0 else Added(ops[..|ops| - 1]) + |Events(ops[|ops| - 1])|
  }

  /** The operation leaves a snapshot behind when `n` events are stored after it: it is forced, or the criteria say so. */
  predicate Takes(config: Config, op: Op, n: U64) {
    !op.Persist? && (op.offer.force || Due(config.criteria, Last(Events(op)), op.offer.state, n))
  }

  predicate Due(criteria: SnapshotCriteria, event: Option<Event>, state: State, n: U64) {
    || criteria.Always?
    || (criteria.Every? && n > 0 && criteria.numberOfEvents > 0 && n % criteria.numberOfEvents == 0)
    || (criteria.Predicate? && criteria.test(event, state, n))
  }

  /** The snapshots that the operations take, `n` events being stored before them. */
  function Taken(config: Config, n: nat, ops: seq<Op>): seq<Snapshot>
    requires n + Added(ops) <= U64_MAX
  {
    if ops == [] then []
    else
      var front, last, m := ops[..|ops| - 1], ops[|ops| - 1], n + Added(ops);
      Taken(config, n, front) + if Takes(config, last, m) then [Snapshot(m, last.offer.state)] else []
  }

  /** The bound a snapshot at `n` asks for, in unbounded integers, and 0 when it asks for none. */
  function Asks(r: RetentionCriteria, n: nat): nat {
    if r.snapshotEvery.Some? && r.keepSnapshots.Some? && r.keepSnapshots.value > 0
       && r.snapshotEvery.value > 0 && n / r.snapshotEvery.value > r.keepSnapshots.value
    then Times(r.snapshotEvery.value, n / r.snapshotEvery.value - r.keepSnapshots.value)
    else 0
  }

  function Times(a: nat, b: nat): nat { a * b }

  lemma AsksExactly(r: RetentionCriteria, n: U64)
    ensures r.DeleteTo(n) == if Asks(r, n) == 0 then None else Some(Asks(r, n))
    ensures Asks(r, n) == 0 || Asks(r, n) < n
  {
    if r.Configured() {
      var every, keep := r.snapshotEvery.value, r.keepSnapshots.value;
      BoundIsExact(every, keep, n);
      Products(every, n / every, keep);
      if r.DeleteTo(n).Some? {
        BoundBelow(r, n);
      }
    }
  }

  /** The largest bound that any of the snapshots asks for. */
  function LargestBound(config: Config, snapshots: seq<Snapshot>): nat {
    if snapshots == [] then 0
    else Larger(LargestBound(config, snapshots[..|snapshots| - 1]), Asks(config.retention, snapshots[|snapshots| - 1].sequenceNr))
  }

  function AboveBound(snapshots: seq<Snapshot>, bound: U64): seq<Snapshot> {
    if bound == 0 then snapshots else SnapshotsAfter(snapshots, bound)
  }

  lemma BoundAppend(config: Config, snapshots: seq<Snapshot>, last: Snapshot)
    ensures LargestBound(config, snapshots + [last])
            == Larger(LargestBound(config, snapshots), Asks(config.retention, last.sequenceNr))
  {
    assert (snapshots + [last])[..|snapshots|] == snapshots;
  }

  lemma TakenNext(config: Config, n: nat, front: seq<Op>, last: Op)
    requires n + Added(front) + |Events(last)| <= U64_MAX
    ensures var m := n + Added(front) + |Events(last)|;
            && Added(front + [last]) == Added(front) + |Events(last)|
            && Taken(config, n, front + [last])
               == if Takes(config, last, m) then Taken(config, n, front) + [Snapshot(m, last.offer.state)] else Taken(config, n, front)
  {
    assert (front + [last])[..|front|] == front;
    assert Taken(config, n, front) + [] == Taken(config, n, front);
  }

  // ---------- deletions that follow one another ----------

  lemma SnapshotsAfterAppend(snapshots: seq<Snapshot>, last: Snapshot, to: U64)
    ensures SnapshotsAfter(snapshots + [last], to) == SnapshotsAfter(snapshots, to) + if last.sequenceNr > to then [last] else []
  {
    assert (snapshots + [last])[..|snapshots|] == snapshots;
  }

  lemma {:induction false} SnapshotsAfterTwice(snapshots: seq<Snapshot>, a: U64, b: U64)
    ensures SnapshotsAfter(SnapshotsAfter(snapshots, a), b) == SnapshotsAfter(snapshots, Larger(a, b))
  {
    if snapshots != [] {
      var front, last := snapshots[..|snapshots| - 1], snapshots[|snapshots| - 1];
      SnapshotsAfterTwice(front, a, b);
      SnapshotsAfterAppend(SnapshotsAfter(front, a), last, b);
    }
  }

  /** One more snapshot, then the deletion it asks for. */
  lemma AboveBoundNext(snapshots: seq<Snapshot>, bound: U64, last: Snapshot, to: U64)
    requires (bound == 0 || bound < last.sequenceNr) && 0 < to < last.sequenceNr
    ensures SnapshotsAfter(AboveBound(snapshots, bound) + [last], to) == AboveBound(snapshots + [last], Larger(bound, to))
  {
    SnapshotsAfterAppend(AboveBound(snapshots, bound), last, to);
    SnapshotsAfterAppend(snapshots, last, Larger(bound, to));
    SnapshotsAfterTwice(snapshots, bound, to);
  }

  lemma DeletedNumbered(events: seq<Stored>, history: seq<Event>, base: nat, to: U64)
    requires Numbered(events, history, base) && (to == 0 || to < |history|)
    ensures Numbered(EventsAfter(events, to), history, Larger(base, to))
  {
    EventsAfterNumbered(events, history, base, to);
  }

  // ---------- scripts ----------

  /** What is left when snapshots `taken` asked for deletions up to `bound`. */
  ghost predicate Left(config: Config, start: Entry, base: nat, history: seq<Event>, taken: seq<Snapshot>, bound: nat, v: World) {
    && v.sequenceNr == v.entry.sequenceNr == |history| <= U64_MAX
    && (bound == 0 || bound < |history|)
    && Numbered(v.entry.events, history, if config.retention.deleteEvents then Larger(base, bound) else base)
    && v.entry.snapshots == AboveBound(start.snapshots + taken, bound)
  }

  lemma PersistLeft(config: Config, start: Entry, base: nat, history: seq<Event>, taken: seq<Snapshot>, bound: nat, v: World, es: seq<Event>)
    requires Left(config, start, base, history, taken, bound, v) && |history| + |es| <= U64_MAX
    ensures var entry := PersistEvents(v.entry, es);
            Left(config, start, base, history + es, taken, bound, v.(entry := entry, sequenceNr := entry.sequenceNr))
  {
    PersistCounts(v.entry, es);
    NumberedAppends(v.entry, history, if config.retention.deleteEvents then Larger(base, bound) else base, es);
  }

  lemma RetainParts(config: Config, entry: Entry, n: U64, asks: nat)
    requires config.retention.DeleteTo(n) == if asks == 0 then None else Some(asks)
    ensures var left := Retain(config, entry, n);
            && left.sequenceNr == entry.sequenceNr
            && left.snapshots == (if asks == 0 then entry.snapshots else SnapshotsAfter(entry.snapshots, asks))
            && left.events == (if asks == 0 || !config.retention.deleteEvents then entry.events else EventsAfter(entry.events, asks))
  {
  }

  lemma SnapshotAbove(snapshots: seq<Snapshot>, bound: U64, last: Snapshot, asks: U64)
    requires (bound == 0 || bound < last.sequenceNr) && (asks == 0 || asks < last.sequenceNr)
    ensures var left := AboveBound(snapshots, bound) + [last];
            AboveBound(snapshots + [last], Larger(bound, asks)) == if asks == 0 then left else SnapshotsAfter(left, asks)
  {
    SnapshotsAfterAppend(snapshots, last, bound);
    if asks > 0 {
      AboveBoundNext(snapshots, bound, last, asks);
    }
  }

  lemma SnapshotLeft(
    config: Config, start: Entry, base: nat, history: seq<Event>, taken: seq<Snapshot>, bound: nat, v: World, state: State, asks: nat)
    requires Left(config, start, base, history, taken, bound, v) && (asks == 0 || asks < |history|)
    requires config.retention.DeleteTo(|history|) == if asks == 0 then None else Some(asks)
    ensures var saved := Retain(config, SaveSnapshot(v.entry, state, |history|), |history|);
            Left(config, start, base, history, taken + [Snapshot(|history|, state)], Larger(bound, asks), v.(entry := saved))
  {
    var n, last := |history|, Snapshot(|history|, state);
    RetainParts(config, SaveSnapshot(v.entry, state, n), n, asks);
    assert start.snapshots + (taken + [last]) == start.snapshots + taken + [last];
    SnapshotAbove(start.snapshots + taken, bound, last, asks);
    DeletedNumbered(v.entry.events, history, if config.retention.deleteEvents then Larger(base, bound) else base, asks);
  }

  /** The criteria of the code say what they should. */
  lemma TakesExactly(config: Config, op: Op, n: U64)
    ensures Takes(config, op, n) <==> !op.Persist? && ShouldSave(config, Last(Events(op)), op.offer, n)
  {
  }

  lemma OpLeft(
    config: Config, start: Entry, base: nat, history: seq<Event>, taken: seq<Snapshot>, bound: nat, w: World, op: Op, takes: bool, asks: nat)
    requires Left(config, start, base, history, taken, bound, w) && |history| + |Events(op)| <= U64_MAX
    requires var n := |history| + |Events(op)|;
             && (takes <==> !op.Persist? && ShouldSave(config, Last(Events(op)), op.offer, n)) && (asks == 0 || asks < n)
             && config.retention.DeleteTo(n) == if asks == 0 then None else Some(asks)
    ensures var h := history + Events(op);
            Left(config, start, base, h, if takes then taken + [Snapshot(|h|, op.offer.state)] else taken,
                 if takes then Larger(bound, asks) else bound, Ephemeral(config, w, op))
  {
    var es := Events(op);
    var h := history + es;
    PersistLeft(config, start, base, history, taken, bound, w, es);
    var entry := PersistEvents(w.entry, es);
    var v := w.(entry := entry, sequenceNr := entry.sequenceNr);
    assert op.PersistSnapshot? ==> h == history;
    if takes {
      SnapshotLeft(config, start, base, h, taken, bound, v, op.offer.state, asks);
    }
  }

  lemma {:induction false} AllEventsAppend(history: seq<Event>, ops: seq<Op>, op: Op)
    ensures AllEvents(history, ops + [op]) == AllEvents(history, ops) + Events(op)
    decreases |ops|
  {
    if ops == [] {
      assert ops + [op] == [op] && [op][1..] == [];
      assert history + [] == history;
    } else {
      AllEventsAppend(if ops[0].PersistSnapshot? then history else history + ops[0].batch.Events(), ops[1..], op);
      assert (ops + [op])[1..] == ops[1..] + [op];
    }
  }

  ghost predicate NumberedStart(start: Entry, before: seq<Event>) {
    |start.events| <= |before| && Numbered(start.events, before, Gone(start, before)) && start.sequenceNr == |before|
  }

  /** What the script makes of the history, and what it leaves of it. */
  ghost predicate Leaves(config: Config, start: Entry, before: seq<Event>, ops: seq<Op>)
    requires |start.events| <= |before|
  {
    && |AllEvents(before, ops)| == |before| + Added(ops) <= U64_MAX
    && var taken := Taken(config, |before|, ops);
       Left(config, start, Gone(start, before), AllEvents(before, ops), taken, LargestBound(config, taken),
            RunScript(config, World(start, start.sequenceNr, []), ops))
  }

  lemma LeavesFrom(
    config: Config, start: Entry, before: seq<Event>, ops: seq<Op>, history: seq<Event>, taken: seq<Snapshot>, bound: nat, v: World)
    requires |start.events| <= |before| && history == AllEvents(before, ops) && |history| == |before| + Added(ops) <= U64_MAX
    requires taken == Taken(config, |before|, ops) && bound == LargestBound(config, taken)
    requires v == RunScript(config, World(start, start.sequenceNr, []), ops)
    requires Left(config, start, Gone(start, before), history, taken, bound, v)
    ensures Leaves(config, start, before, ops)
  {
  }

  lemma RunScriptNext(config: Config, w: World, front: seq<Op>, last: Op)
    ensures RunScript(config, w, front + [last]) == Ephemeral(config, RunScript(config, w, front), last)
  {
    RunScriptAppend(config, w, front, [last]);
    var v := RunScript(config, w, front);
    assert [last][1..] == [];
    assert RunScript(config, v, [last]) == RunScript(config, Ephemeral(config, v, last), []);
  }

  lemma ScriptNext(config: Config, start: Entry, before: seq<Event>, front: seq<Op>, last: Op)
    requires |start.events| <= |before| && Leaves(config, start, before, front)
    requires |before| + Added(front) + |Events(last)| <= U64_MAX
    ensures Leaves(config, start, before, front + [last])
  {
    var w := World(start, start.sequenceNr, []);
    var h, taken, v := AllEvents(before, front), Taken(config, |before|, front), RunScript(config, w, front);
    var next := h + Events(last);
    var bound, takes, asks := LargestBound(config, taken), Takes(config, last, |next|), Asks(config.retention, |next|);
    TakesExactly(config, last, |next|);
    AsksExactly(config.retention, |next|);
    OpLeft(config, start, Gone(start, before), h, taken, bound, v, last, takes, asks);
    NextParts(config, start, before, front, last, next);
    if takes {
      BoundAppend(config, taken, Snapshot(|next|, last.offer.state));
    }
    LeavesFrom(config, start, before, front + [last], next,
               if takes then taken + [Snapshot(|next|, last.offer.state)] else taken,
               if takes then Larger(bound, asks) else bound, Ephemeral(config, v, last));
  }

  lemma NextParts(config: Config, start: Entry, before: seq<Event>, front: seq<Op>, last: Op, h: seq<Event>)
    requires |before| + Added(front) + |Events(last)| <= U64_MAX && |AllEvents(before, front)| == |before| + Added(front)
    requires h == AllEvents(before, front) + Events(last)
    ensures var w, ops := World(start, start.sequenceNr, []), front + [last];
            && AllEvents(before, ops) == h && |h| == |before| + Added(ops)
            && RunScript(config, w, ops) == Ephemeral(config, RunScript(config, w, front), last)
            && Taken(config, |before|, ops)
               == if Takes(config, last, |h|) then Taken(config, |before|, front) + [Snapshot(|h|, last.offer.state)]
                  else Taken(config, |before|, front)
  {
    AllEventsAppend(before, front, last);
    RunScriptNext(config, World(start, start.sequenceNr, []), front, last);
    TakenNext(config, |before|, front, last);
  }

  /** The one-shot form leaves exactly what its snapshots let it, from any numbered log. */
  lemma {:induction false} ScriptLeaves(config: Config, start: Entry, before: seq<Event>, ops: seq<Op>)
    requires NumberedStart(start, before) && |before| + Added(ops) <= U64_MAX
    ensures Leaves(config, start, before, ops)
  {
    if ops == [] {
      assert start.snapshots + [] == start.snapshots;
    } else {
      var front, last := ops[..|ops| - 1], ops[|ops| - 1];
      assert ops == front + [last];
      ScriptLeaves(config, start, before, front);
      ScriptNext(config, start, before, front, last);
    }
  }

  // ---------- runs ----------

  /**
   In every run, whenever the user's behaviour is back in place: without `deleteEvents` the log is
   the one the run started with and everything persisted since; with it, the log is the
   part of the history above the largest bound any snapshot of the run asked for.
   */
  lemma LogExact(config: Config, entry: Entry, before: seq<Event>, actors: seq<Actor>, moves: seq<Move>, i: nat)
    requires IsRun(config, entry, actors, moves) && i < |actors| && actors[i].core.mode.Ready?
    requires NumberedStart(entry, before) && |before| + Added(actors[i].issued) <= U64_MAX
    ensures var a := actors[i];
            var now, history, gone := a.core.entry, AllEvents(before, a.issued), Gone(entry, before);
            var bound := LargestBound(config, Taken(config, |before|, a.issued));
            && Numbered(now.events, history, if config.retention.deleteEvents then Larger(gone, bound) else gone)
            && (Sound(config, entry, before) && HonestOps(config, before, a.issued) ==> history == before + a.core.logged)
  {
    ReadyAsEphemeral(config, entry, actors, moves, i);
    ScriptLeaves(config, entry, before, actors[i].issued);
    if Sound(config, entry, before) && HonestOps(config, before, actors[i].issued) {
      ReadyLogged(config, entry, before, actors, moves, i);
    }
  }

  /** And the snapshots are those of the start and those taken since, above that bound, in their order. */
  lemma SnapshotsExact(config: Config, entry: Entry, before: seq<Event>, actors: seq<Actor>, moves: seq<Move>, i: nat)
    requires IsRun(config, entry, actors, moves) && i < |actors| && actors[i].core.mode.Ready?
    requires NumberedStart(entry, before) && |before| + Added(actors[i].issued) <= U64_MAX
    ensures var taken := Taken(config, |before|, actors[i].issued);
            var bound := LargestBound(config, taken);
            bound <= U64_MAX && actors[i].core.entry.snapshots == AboveBound(entry.snapshots + taken, bound)
  {
    ReadyAsEphemeral(config, entry, actors, moves, i);
    ScriptLeaves(config, entry, before, actors[i].issued);
  }
}
