/**
 The retention criteria at work in a run of the effector: with one event and one snapshot
 offer at a time, the store holds exactly the latest snapshots it is to keep.
 */
module RetentionRuns {
  import opened Options
  import opened Retention
  import opened EventStore
  import opened Effector

  /** A snapshot at every multiple of `every`, of which `keep` are kept. */
  ghost predicate Counted(config: Config, every: U64, keep: U64) {
    && every > 0 && keep > 0
    && config.criteria.Every? && config.criteria.numberOfEvents == every
    && config.retention.snapshotEvery == Some(every) && config.retention.keepSnapshots == Some(keep)
  }

  /** One event, with a snapshot offered that the criteria decide on. */
  predicate Single(op: Op) {
    op.PersistThenSnapshot? && op.batch.One? && !op.offer.force
  }

  function Numbers(snapshots: seq<Snapshot>): seq<nat> {
    seq(|snapshots|, i requires 0 <= i < |snapshots| => snapshots[i].sequenceNr)
  }

  const UNUSED: Entry := Entry(0, [], [])

  lemma {:induction false} NumbersAfter(snapshots: seq<Snapshot>, to: U64)
    ensures Numbers(SnapshotsAfter(snapshots, to)) == Above(Numbers(snapshots), to)
  {
    if snapshots != [] {
      var front, last := snapshots[..|snapshots| - 1], snapshots[|snapshots| - 1];
      NumbersAfter(front, to);
      assert Numbers(snapshots)[..|snapshots| - 1] == Numbers(front);
      NumbersMore(SnapshotsAfter(front, to), last);
    }
  }

  lemma NumbersMore(snapshots: seq<Snapshot>, last: Snapshot)
    ensures Numbers(snapshots + [last]) == Numbers(snapshots) + [last.sequenceNr]
  {
  }

  /** What retention leaves is what the criteria's bound leaves of the numbers. */
  lemma RetainNumbers(config: Config, entry: Entry, n: U64)
    ensures Numbers(Retain(config, entry, n).snapshots)
            == match config.retention.DeleteTo(n) case None => Numbers(entry.snapshots) case Some(to) => Above(Numbers(entry.snapshots), to)
  {
    if config.retention.DeleteTo(n).Some? {
      NumbersAfter(entry.snapshots, config.retention.DeleteTo(n).value);
    }
  }

  /** One more event, one more number: the step of `Survivors`. */
  lemma SingleStep(config: Config, every: U64, keep: U64, w: World, op: Op, n: U64)
    requires Counted(config, every, keep) && Single(op) && n > 0
    requires w.entry.sequenceNr == n - 1 && Numbers(w.entry.snapshots) == Survivors(every, keep, n - 1)
    ensures var v := Ephemeral(config, w, op);
            v.entry.sequenceNr == n && Numbers(v.entry.snapshots) == Survivors(every, keep, n)
  {
    var stored := PersistEvents(w.entry, op.batch.Events());
    PersistCounts(w.entry, op.batch.Events());
    if ShouldSave(config, Last(op.batch.Events()), op.offer, n) {
      var saved := SaveSnapshot(stored, op.offer.state, n);
      NumbersMore(stored.snapshots, Snapshot(n, op.offer.state));
      RetainNumbers(config, saved, n);
    }
  }

  lemma {:induction false} ScriptSurvivors(config: Config, every: U64, keep: U64, ops: seq<Op>)
    requires Counted(config, every, keep) && |ops| <= U64_MAX && forall op <- ops :: Single(op)
    ensures var v := RunScript(config, World(UNUSED, 0, []), ops);
            v.entry.sequenceNr == |ops| && Numbers(v.entry.snapshots) == Survivors(every, keep, |ops|)
  {
    var start := World(UNUSED, 0, []);
    if ops != [] {
      var front, last := ops[..|ops| - 1], ops[|ops| - 1];
      assert ops == front + [last] && last in ops;
      ScriptSurvivors(config, every, keep, front);
      RunScriptAppend(config, start, front, [last]);
      var w := RunScript(config, start, front);
      SingleStep(config, every, keep, w, last, |ops|);
      assert [last][1..] == [];
      assert RunScript(config, w, [last]) == Ephemeral(config, w, last);
    }
  }

  /**
   Whenever the user's behaviour is back in place, the store of a run over an unused entry
   holds exactly the latest `min(keep, n / every)` snapshots after `n` single events.
   */
  lemma RunKeepsLatest(config: Config, every: U64, keep: U64, actors: seq<Actor>, moves: seq<Move>, i: nat)
    requires IsRun(config, UNUSED, actors, moves) && i < |actors| && actors[i].core.mode.Ready?
    requires Counted(config, every, keep) && |actors[i].issued| <= U64_MAX && forall op <- actors[i].issued :: Single(op)
    ensures var q := |actors[i].issued| / every;
            LastMultiples(Numbers(actors[i].core.entry.snapshots), every, q, Min(keep, q))
  {
    ReadyAsEphemeral(config, UNUSED, actors, moves, i);
    ScriptSurvivors(config, every, keep, actors[i].issued);
    SurvivorsAreLatest(every, keep, |actors[i].issued|);
  }
}
