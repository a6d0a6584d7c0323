/**
 The event log and snapshots of one persistence id: what the store does with each
 command, what recovery reads back, and why deletion does not change that.
 */
module EventStore {
  import opened Options
  import opened Retention

  /** The aggregate's state, its events and the user's messages are opaque. */
  type State(!new)
  type Event(!new)

  datatype SnapshotCriteria =
    | Never
    | Always
    | Every(numberOfEvents: U64)
    | Predicate(test: (Option<Event>, State, U64) -> bool)
  {
    predicate ShouldTake(event: Option<Event>, state: State, sequenceNr: U64) {
      match this
      case Never => false
      case Always => true
      case Every(n) => IsMultiple(sequenceNr, n)
      case Predicate(test) => test(event, state, sequenceNr)
    }
  }

  datatype Config = Config(
    initial: State,
    apply: (State, Event) -> State,
    criteria: SnapshotCriteria,
    retention: RetentionCriteria,
    stashCapacity: nat,
    persistFailureBackoff: bool)

  datatype Stored = Stored(sequenceNr: U64, event: Event)

  datatype Snapshot = Snapshot(sequenceNr: U64, state: State)

  datatype Entry = Entry(sequenceNr: U64, events: seq<Stored>, snapshots: seq<Snapshot>)

  // ---------- what the store does ----------

  function PersistEvents(entry: Entry, es: seq<Event>): Entry {
    if es == [] then entry
    else
      var before := PersistEvents(entry, es[..|es| - 1]);
      var n := SaturatingAdd(before.sequenceNr, 1);
      Entry(n, before.events + [Stored(n, es[|es| - 1])], before.snapshots)
  }

  function SaveSnapshot(entry: Entry, state: State, sequenceNr: U64): Entry {
    entry.(snapshots := entry.snapshots + [Snapshot(sequenceNr, state)])
  }

  function DeleteEvents(entry: Entry, to: U64): Entry {
    entry.(events := EventsAfter(entry.events, to))
  }

  function DeleteSnapshots(entry: Entry, to: U64): Entry {
    entry.(snapshots := SnapshotsAfter(entry.snapshots, to))
  }

  function EventsAfter(events: seq<Stored>, to: U64): seq<Stored> {
    if events == [] then []
    else if events[|events| - 1].sequenceNr > to then EventsAfter(events[..|events| - 1], to) + [events[|events| - 1]]
    else EventsAfter(events[..|events| - 1], to)
  }

  function SnapshotsAfter(snapshots: seq<Snapshot>, to: U64): seq<Snapshot> {
    if snapshots == [] then []
    else if snapshots[|snapshots| - 1].sequenceNr > to
    then SnapshotsAfter(snapshots[..|snapshots| - 1], to) + [snapshots[|snapshots| - 1]]
    else SnapshotsAfter(snapshots[..|snapshots| - 1], to)
  }

  // ---------- recovery ----------

  /** The last of the snapshots with the largest sequence number. */
  function Newest(snapshots: seq<Snapshot>): Option<Snapshot> {
    if snapshots == [] then None
    else
      var best, last := Newest(snapshots[..|snapshots| - 1]), snapshots[|snapshots| - 1];
      if best.Some? && best.value.sequenceNr > last.sequenceNr then best else Some(last)
  }

  function NewestNr(snapshots: seq<Snapshot>): U64 {
    match Newest(snapshots)
    case None => 0
    case Some(s) => s.sequenceNr
  }

  function Replay(config: Config, state: State, events: seq<Stored>): State {
    if events == [] then state
    else config.apply(Replay(config, state, events[..|events| - 1]), events[|events| - 1].event)
  }

  function RecoverFrom(config: Config, entry: Entry, snapshot: Option<Snapshot>): (State, U64) {
    var state := if snapshot.Some? then snapshot.value.state else config.initial;
    var from := if snapshot.Some? then snapshot.value.sequenceNr else 0;
    var events := EventsAfter(entry.events, from);
    (Replay(config, state, events), if events == [] then from else events[|events| - 1].sequenceNr)
  }

  function Recover(config: Config, entry: Entry): (State, U64) {
    RecoverFrom(config, entry, Newest(entry.snapshots))
  }

  // ---------- the whole history as the reference ----------

  function Fold(config: Config, history: seq<Event>): State {
    if history == [] then config.initial
    else config.apply(Fold(config, history[..|history| - 1]), history[|history| - 1])
  }

  /** `events` is the history from `base` on, with its sequence numbers. */
  ghost predicate Numbered(events: seq<Stored>, history: seq<Event>, base: nat) {
    && base + |events| == |history| <= U64_MAX
    && forall i :: 0 <= i < |events| ==> events[i] == Stored(base + i + 1, history[base + i])
  }

  ghost predicate Honest(config: Config, snapshots: seq<Snapshot>, history: seq<Event>) {
    forall s <- snapshots :: s.sequenceNr <= |history| && s.state == Fold(config, history[..s.sequenceNr])
  }

  /** How many events are gone from the log. */
  ghost function Gone(entry: Entry, history: seq<Event>): int {
    |history| - |entry.events|
  }

  /** The log is the end of the history, and the newest snapshot reaches at least its start. */
  ghost predicate Sound(config: Config, entry: Entry, history: seq<Event>) {
    && |entry.events| <= |history|
    && entry.sequenceNr == |history|
    && Honest(config, entry.snapshots, history)
    && Numbered(entry.events, history, Gone(entry, history))
    && Gone(entry, history) <= NewestNr(entry.snapshots)
  }

  lemma {:induction false} PersistAppends(entry: Entry, es: seq<Event>)
    requires entry.sequenceNr + |es| <= U64_MAX
    ensures var t := PersistEvents(entry, es);
            && t.sequenceNr == entry.sequenceNr + |es| && t.snapshots == entry.snapshots
            && |t.events| == |entry.events| + |es|
            && t.events[..|entry.events|] == entry.events
            && forall i :: 0 <= i < |es| ==> t.events[|entry.events| + i] == Stored(entry.sequenceNr + i + 1, es[i])
  {
    if es != [] {
      PersistAppends(entry, es[..|es| - 1]);
    }
  }

  lemma PersistCounts(entry: Entry, es: seq<Event>)
    requires entry.sequenceNr + |es| <= U64_MAX
    ensures var t := PersistEvents(entry, es);
            && t.sequenceNr == entry.sequenceNr + |es| && t.snapshots == entry.snapshots
            && |t.events| == |entry.events| + |es|
  {
    PersistAppends(entry, es);
  }

  lemma NumberedAppends(entry: Entry, history: seq<Event>, base: nat, es: seq<Event>)
    requires Numbered(entry.events, history, base) && entry.sequenceNr == |history| && |history| + |es| <= U64_MAX
    ensures Numbered(PersistEvents(entry, es).events, history + es, base)
  {
    PersistAppends(entry, es);
    var t, h, n := PersistEvents(entry, es).events, history + es, |entry.events|;
    forall i | 0 <= i < |t| ensures t[i] == Stored(base + i + 1, h[base + i]) {
      if i < n {
        assert t[i] == t[..n][i] == entry.events[i];
      } else {
        assert t[i] == t[n + (i - n)];
      }
    }
  }

  lemma HonestExtends(config: Config, snapshots: seq<Snapshot>, history: seq<Event>, es: seq<Event>)
    requires Honest(config, snapshots, history)
    ensures Honest(config, snapshots, history + es)
  {
    var h := history + es;
    forall s | s in snapshots ensures s.sequenceNr <= |h| && s.state == Fold(config, h[..s.sequenceNr]) {
      assert h[..s.sequenceNr] == history[..s.sequenceNr];
    }
  }

  lemma PersistSound(config: Config, entry: Entry, history: seq<Event>, es: seq<Event>)
    requires Sound(config, entry, history) && |history| + |es| <= U64_MAX
    ensures Sound(config, PersistEvents(entry, es), history + es)
  {
    PersistCounts(entry, es);
    NumberedAppends(entry, history, Gone(entry, history), es);
    HonestExtends(config, entry.snapshots, history, es);
  }

  lemma {:induction false} NewestIsLargest(snapshots: seq<Snapshot>)
    ensures Newest(snapshots).None? <==> snapshots == []
    ensures Newest(snapshots).Some? ==> Newest(snapshots).value in snapshots
    ensures forall s <- snapshots :: s.sequenceNr <= NewestNr(snapshots)
  {
    if snapshots != [] {
      var front := snapshots[..|snapshots| - 1];
      NewestIsLargest(front);
      assert snapshots == front + [snapshots[|snapshots| - 1]];
    }
  }

  lemma SnapshotSound(config: Config, entry: Entry, history: seq<Event>, state: State)
    requires Sound(config, entry, history) && state == Fold(config, history)
    ensures Sound(config, SaveSnapshot(entry, state, |history|), history)
    ensures NewestNr(SaveSnapshot(entry, state, |history|).snapshots) == |history|
  {
    var t := SaveSnapshot(entry, state, |history|);
    assert history[..|history|] == history;
    NewestIsLargest(t.snapshots);
    assert t.snapshots[|t.snapshots| - 1].sequenceNr == |history|;
  }

  /** How many events of a log that starts after `base` have a number up to `to`. */
  ghost function Reached(base: nat, length: nat, to: U64): (k: nat)
    ensures k <= length
  {
    if to <= base then 0 else if to >= base + length then length else to - base
  }

  /** Deleting from a numbered log drops exactly its first part. */
  lemma {:induction false} EventsAfterNumbered(events: seq<Stored>, history: seq<Event>, base: nat, to: U64)
    requires Numbered(events, history, base)
    ensures EventsAfter(events, to) == events[Reached(base, |events|, to)..]
  {
    if events != [] {
      var n := |events| - 1;
      var front, last := events[..n], events[n];
      assert Numbered(front, history[..|history| - 1], base);
      EventsAfterNumbered(front, history[..|history| - 1], base, to);
      assert last.sequenceNr == base + n + 1;
      if last.sequenceNr > to {
        var k := Reached(base, n, to);
        assert k == Reached(base, n + 1, to);
        assert events[k..] == front[k..] + [last];
      }
    }
  }

  lemma DeleteEventsSound(config: Config, entry: Entry, history: seq<Event>, to: U64)
    requires Sound(config, entry, history) && to <= NewestNr(entry.snapshots)
    ensures Sound(config, DeleteEvents(entry, to), history)
  {
    EventsAfterNumbered(entry.events, history, Gone(entry, history), to);
    NewestIsLargest(entry.snapshots);
  }

  lemma {:induction false} SnapshotsAfterKeeps(snapshots: seq<Snapshot>, to: U64)
    ensures forall s :: s in SnapshotsAfter(snapshots, to) <==> s in snapshots && s.sequenceNr > to
  {
    if snapshots != [] {
      SnapshotsAfterKeeps(snapshots[..|snapshots| - 1], to);
      assert snapshots == snapshots[..|snapshots| - 1] + [snapshots[|snapshots| - 1]];
    }
  }

  lemma NewestAppend(snapshots: seq<Snapshot>, last: Snapshot)
    ensures Newest(snapshots + [last])
            == if snapshots != [] && NewestNr(snapshots) > last.sequenceNr then Newest(snapshots) else Some(last)
  {
    assert (snapshots + [last])[..|snapshots|] == snapshots;
    NewestIsLargest(snapshots);
  }

  lemma {:induction false} NewestKept(snapshots: seq<Snapshot>, to: U64)
    ensures NewestNr(snapshots) > to ==> Newest(SnapshotsAfter(snapshots, to)) == Newest(snapshots)
    ensures NewestNr(snapshots) <= to ==> SnapshotsAfter(snapshots, to) == []
  {
    if snapshots != [] {
      var front, last := snapshots[..|snapshots| - 1], snapshots[|snapshots| - 1];
      NewestKept(front, to);
      NewestIsLargest(front);
      NewestAppend(SnapshotsAfter(front, to), last);
    }
  }

  lemma DeleteSnapshotsSound(config: Config, entry: Entry, history: seq<Event>, to: U64)
    requires Sound(config, entry, history) && to < NewestNr(entry.snapshots)
    ensures Sound(config, DeleteSnapshots(entry, to), history)
    ensures Newest(DeleteSnapshots(entry, to).snapshots) == Newest(entry.snapshots)
  {
    SnapshotsAfterKeeps(entry.snapshots, to);
    NewestKept(entry.snapshots, to);
  }

  // ---------- recovery is the fold of the whole history ----------

  lemma {:induction false} ReplayNumbered(config: Config, events: seq<Stored>, history: seq<Event>, base: nat)
    requires Numbered(events, history, base)
    ensures Replay(config, Fold(config, history[..base]), events) == Fold(config, history)
  {
    if events == [] {
      assert history[..base] == history;
    } else {
      var n := |history| - 1;
      assert Numbered(events[..|events| - 1], history[..n], base);
      ReplayNumbered(config, events[..|events| - 1], history[..n], base);
      assert history[..n][..base] == history[..base];
    }
  }

  lemma LogFrom(events: seq<Stored>, history: seq<Event>, base: nat, from: U64)
    requires Numbered(events, history, base) && base <= from <= |history|
    ensures Numbered(EventsAfter(events, from), history, from)
  {
    EventsAfterNumbered(events, history, base, from);
    assert EventsAfter(events, from) == events[from - base..];
  }

  /** From any snapshot that reaches the start of the log, the rest of the log gives the present state. */
  lemma AnySnapshotRecovers(config: Config, entry: Entry, history: seq<Event>, snapshot: Option<Snapshot>)
    requires Sound(config, entry, history)
    requires snapshot.Some? ==> snapshot.value in entry.snapshots && Gone(entry, history) <= snapshot.value.sequenceNr
    requires snapshot.None? ==> Gone(entry, history) == 0
    ensures RecoverFrom(config, entry, snapshot) == (Fold(config, history), |history|)
  {
    var from := if snapshot.Some? then snapshot.value.sequenceNr else 0;
    LogFrom(entry.events, history, Gone(entry, history), from);
    ReplayNumbered(config, EventsAfter(entry.events, from), history, from);
    assert history[..0] == [];
  }

  lemma RecoverIsFold(config: Config, entry: Entry, history: seq<Event>)
    requires Sound(config, entry, history)
    ensures Recover(config, entry) == (Fold(config, history), |history|)
  {
    NewestIsLargest(entry.snapshots);
    AnySnapshotRecovers(config, entry, history, Newest(entry.snapshots));
  }

  // ---------- recovery by selection ----------

  /** Which snapshots may be used, up to which event to replay, and at most how many events; 0 is no limit. */
  datatype Selection = NoRecovery | Selected(matches: Snapshot -> bool, to: U64, replayMax: nat)

  function Matching(snapshots: seq<Snapshot>, matches: Snapshot -> bool): (r: seq<Snapshot>)
    ensures forall s :: s in r <==> s in snapshots && matches(s)
  {
    if snapshots == [] then []
    else
      assert snapshots == snapshots[..|snapshots| - 1] + [snapshots[|snapshots| - 1]];
      var front, last := Matching(snapshots[..|snapshots| - 1], matches), snapshots[|snapshots| - 1];
      if matches(last) then front + [last] else front
  }

  function EventsUpTo(events: seq<Stored>, to: U64): seq<Stored> {
    if events == [] then []
    else if events[|events| - 1].sequenceNr <= to then EventsUpTo(events[..|events| - 1], to) + [events[|events| - 1]]
    else EventsUpTo(events[..|events| - 1], to)
  }

  function Window(entry: Entry, from: U64, to: U64, replayMax: nat): seq<Stored> {
    var events := EventsUpTo(EventsAfter(entry.events, from), to);
    if replayMax == 0 || |events| <= replayMax then events else events[..replayMax]
  }

  function RecoverBy(config: Config, entry: Entry, selection: Selection): (State, U64) {
    match selection
    case NoRecovery => (config.initial, entry.sequenceNr)
    case Selected(matches, to, replayMax) =>
      var snapshot := Newest(Matching(entry.snapshots, matches));
      var state := if snapshot.Some? then snapshot.value.state else config.initial;
      var from := if snapshot.Some? then snapshot.value.sequenceNr else 0;
      var events := Window(entry, from, to, replayMax);
      (Replay(config, state, events), if events == [] then from else events[|events| - 1].sequenceNr)
  }

  lemma {:induction false} EventsUpToNumbered(events: seq<Stored>, history: seq<Event>, base: nat, to: U64)
    requires Numbered(events, history, base)
    ensures EventsUpTo(events, to) == events[..Reached(base, |events|, to)]
  {
    if events != [] {
      var n := |events| - 1;
      var front, last := events[..n], events[n];
      assert Numbered(front, history[..|history| - 1], base);
      EventsUpToNumbered(front, history[..|history| - 1], base, to);
      assert last.sequenceNr == base + n + 1;
      if last.sequenceNr <= to {
        assert events[..n + 1] == front[..n] + [last];
      } else {
        assert events[..Reached(base, n, to)] == front[..Reached(base, n, to)];
      }
    }
  }

  /** How many events a replay from `from` applies. */
  ghost function Applied(from: nat, length: nat, to: U64, replayMax: nat): nat
    requires from <= length
  {
    var available := Reached(from, length - from, to);
    if replayMax == 0 || available <= replayMax then available else replayMax
  }

  lemma WindowNumbered(entry: Entry, history: seq<Event>, from: U64, to: U64, replayMax: nat)
    requires |entry.events| <= |history| && Numbered(entry.events, history, Gone(entry, history))
    requires Gone(entry, history) <= from <= |history|
    ensures var n := Applied(from, |history|, to, replayMax);
            && from + n <= |history| && |Window(entry, from, to, replayMax)| == n
            && Numbered(Window(entry, from, to, replayMax), history[..from + n], from)
  {
    LogFrom(entry.events, history, Gone(entry, history), from);
    EventsUpToNumbered(EventsAfter(entry.events, from), history, from, to);
  }

  /** What replaying numbered events from a snapshot's state gives, and the number it ends with. */
  lemma ReplayEnds(config: Config, events: seq<Stored>, history: seq<Event>, from: U64, state: State)
    requires Numbered(events, history, from) && state == Fold(config, history[..from])
    ensures Replay(config, state, events) == Fold(config, history)
    ensures (if events == [] then from else events[|events| - 1].sequenceNr) == |history|
  {
    ReplayNumbered(config, events, history, from);
  }

  /** The newest of some honest snapshots, or the initial state when there is none. */
  lemma ChosenHonest(config: Config, snapshots: seq<Snapshot>, history: seq<Event>)
    requires Honest(config, snapshots, history)
    ensures NewestNr(snapshots) <= |history|
    ensures (if Newest(snapshots).Some? then Newest(snapshots).value.state else config.initial)
            == Fold(config, history[..NewestNr(snapshots)])
  {
    NewestIsLargest(snapshots);
    assert history[..0] == [];
  }

  /**
   Recovery by any selection whose snapshot reaches the start of the log gives the fold of a
   prefix of the history, and its length: everything up to the chosen event and limit.
   */
  lemma SelectionRecoversPrefix(config: Config, entry: Entry, history: seq<Event>, selection: Selection)
    requires Sound(config, entry, history) && selection.Selected?
    requires Gone(entry, history) <= NewestNr(Matching(entry.snapshots, selection.matches))
    ensures var from := NewestNr(Matching(entry.snapshots, selection.matches));
            && from <= |history|
            && var n := from + Applied(from, |history|, selection.to, selection.replayMax);
               n <= |history| && RecoverBy(config, entry, selection) == (Fold(config, history[..n]), n)
  {
    var matching := Matching(entry.snapshots, selection.matches);
    var from := NewestNr(matching);
    ChosenHonest(config, matching, history);
    WindowNumbered(entry, history, from, selection.to, selection.replayMax);
    var n := from + Applied(from, |history|, selection.to, selection.replayMax);
    assert history[..n][..from] == history[..from];
    ReplayEnds(config, Window(entry, from, selection.to, selection.replayMax), history[..n], from, Fold(config, history[..from]));
  }

  const LATEST: Selection := Selected(_ => true, U64_MAX, 0)

  lemma AppliedAll(from: nat, length: nat)
    requires from <= length <= U64_MAX
    ensures from + Applied(from, length, U64_MAX, 0) == length
  {
  }

  /** The default selection recovers everything. */
  lemma LatestIsWhole(config: Config, entry: Entry, history: seq<Event>)
    requires Sound(config, entry, history)
    ensures RecoverBy(config, entry, LATEST) == (Fold(config, history), |history|)
  {
    MatchingAll(entry.snapshots);
    SelectionRecoversPrefix(config, entry, history, LATEST);
    AppliedAll(NewestNr(entry.snapshots), |history|);
    assert history[..|history|] == history;
  }

  lemma {:induction false} MatchingAll(snapshots: seq<Snapshot>)
    ensures Matching(snapshots, LATEST.matches) == snapshots
  {
    if snapshots != [] {
      MatchingAll(snapshots[..|snapshots| - 1]);
    }
  }

  // ---------- published events ----------

  /** The numbers the in-memory branch gives to the events it publishes, from the last one backwards. */
  function Published(es: seq<Event>, sequenceNr: U64): seq<Stored>
    requires |es| <= U64_MAX
  {
    var first := SaturatingSub(sequenceNr, SaturatingSub(|es|, 1));
    seq(|es|, i requires 0 <= i < |es| => Stored(SaturatingAdd(first, i), es[i]))
  }

  /** They are the numbers under which the log stored the events. */
  lemma PublishedAsStored(entry: Entry, es: seq<Event>)
    requires entry.sequenceNr + |es| <= U64_MAX
    ensures var t := PersistEvents(entry, es); t.events == entry.events + Published(es, t.sequenceNr)
  {
    PersistAppends(entry, es);
    var t := PersistEvents(entry, es);
    var p := Published(es, t.sequenceNr);
    forall i | 0 <= i < |t.events| ensures t.events[i] == (entry.events + p)[i] {
      if i < |entry.events| {
        assert t.events[i] == t.events[..|entry.events|][i];
      } else {
        assert t.events[i] == t.events[|entry.events| + (i - |entry.events|)];
      }
    }
  }
}
