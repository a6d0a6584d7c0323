/**
 Snapshot and retention criteria of an event-sourced effector: 64-bit checked
 arithmetic, and what it means for the snapshots that survive.
 */
module Retention {
  import opened Options

  const U64_MAX: nat := 0xFFFF_FFFF_FFFF_FFFF

  type U64 = n: nat | n <= U64_MAX

  function CheckedSub(a: U64, b: U64): Option<U64> {
    if b <= a then Some(a - b) else None
  }

  function CheckedMul(a: U64, b: U64): Option<U64> {
    if a * b <= U64_MAX then Some(a * b) else None
  }

  function SaturatingSub(a: U64, b: U64): U64 {
    if b <= a then a - b else 0
  }

  function SaturatingAdd(a: U64, b: nat): U64 {
    if a + b <= U64_MAX then a + b else U64_MAX
  }

  datatype RetentionCriteria = RetentionCriteria(snapshotEvery: Option<U64>, keepSnapshots: Option<U64>, deleteEvents: bool)
  {
    predicate Configured() {
      && snapshotEvery.Some? && snapshotEvery.value > 0
      && keepSnapshots.Some? && keepSnapshots.value > 0
    }

    /** The bound up to which a snapshot at `sequenceNr` lets older ones go. */
    function DeleteTo(sequenceNr: U64): Option<U64> {
      if !Configured() then None
      else OldestDeletable(snapshotEvery.value, keepSnapshots.value, sequenceNr)
    }
  }

  function OldestDeletable(every: U64, keep: U64, sequenceNr: U64): Option<U64>
    requires every > 0 && keep > 0
  {
    match CheckedSub(sequenceNr, sequenceNr % every)
    case None => None
    case Some(latest) =>
      if latest < every then None
      else
        match CheckedMul(every, SaturatingSub(keep, 1))
        case None => None
        case Some(span) =>
          match CheckedSub(latest, span)
          case None => None
          case Some(oldest) =>
            if oldest == 0 then None
            else
              match CheckedSub(oldest, every)
              case None => None
              case Some(bound) => if bound > 0 then Some(bound) else None
  }

  /** In unbounded integers: the multiple of the interval `keep` intervals before the latest one. */
  ghost predicate IsBound(every: nat, keep: nat, sequenceNr: nat, bound: Option<nat>)
    requires every > 0
  {
    var intervals := sequenceNr / every;
    bound == if intervals > keep then Some(every * (intervals - keep)) else None
  }

  /** No checked operation hides a bound: a product that overflows is larger than any sequence number. */
  lemma BoundIsExact(every: U64, keep: U64, sequenceNr: U64)
    requires every > 0 && keep > 0
    ensures IsBound(every, keep, sequenceNr, OldestDeletable(every, keep, sequenceNr))
  {
    var q, r := sequenceNr / every, sequenceNr % every;
    assert sequenceNr - r == every * q;
    assert every * (keep - 1) == every * keep - every;
    Products(every, q, keep);
  }

  lemma Products(every: nat, q: nat, keep: nat)
    requires every > 0
    ensures q > keep ==> every * q - every * keep == every * (q - keep) > 0
    ensures q <= keep ==> every * q <= every * keep
    ensures q == 0 <==> every * q < every
  {
    Distributes(every, q, keep);
    MulMonotone(every, 1, q - keep);
    MulMonotone(every, q, keep);
    MulMonotone(every, 1, q);
  }

  lemma Distributes(every: nat, x: int, y: int)
    ensures every * x - every * y == every * (x - y)
  {
  }

  /** A bound lies strictly below the snapshot that asked for it. */
  lemma BoundBelow(r: RetentionCriteria, sequenceNr: U64)
    requires r.DeleteTo(sequenceNr).Some?
    ensures 0 < r.DeleteTo(sequenceNr).value < sequenceNr
  {
    var every, keep := r.snapshotEvery.value, r.keepSnapshots.value;
    BoundIsExact(every, keep, sequenceNr);
    BoundIsBelow(every, keep, sequenceNr, r.DeleteTo(sequenceNr));
  }

  lemma BoundIsBelow(every: nat, keep: nat, sequenceNr: nat, bound: Option<nat>)
    requires every > 0 && keep > 0 && IsBound(every, keep, sequenceNr, bound) && bound.Some?
    ensures 0 < bound.value < sequenceNr
  {
    var q := sequenceNr / every;
    Products(every, q, keep);
    MulMonotone(every, 1, keep);
    assert sequenceNr >= every * q;
  }

  /** Later snapshots never ask for less. */
  lemma BoundMonotone(r: RetentionCriteria, a: U64, b: U64)
    requires a <= b && r.DeleteTo(a).Some?
    ensures r.DeleteTo(b).Some? && r.DeleteTo(a).value <= r.DeleteTo(b).value
  {
    var every, keep := r.snapshotEvery.value, r.keepSnapshots.value;
    BoundIsExact(every, keep, a);
    BoundIsExact(every, keep, b);
    BoundsOrdered(every, keep, a, b, r.DeleteTo(a), r.DeleteTo(b));
  }

  lemma BoundsOrdered(every: nat, keep: nat, a: nat, b: nat, x: Option<nat>, y: Option<nat>)
    requires every > 0 && a <= b && IsBound(every, keep, a, x) && IsBound(every, keep, b, y) && x.Some?
    ensures y.Some? && x.value <= y.value
  {
    var p, q := a / every, b / every;
    QuotientIs(a, every, p, a % every);
    QuotientOrder(every, b, p);
    MulMonotone(every, p - keep, q - keep);
  }

  lemma MulMonotone(every: nat, x: int, y: int)
    ensures x <= y ==> every * x <= every * y
  {
    if x <= y {
      assert every * y == every * x + every * (y - x);
    }
  }

  /** What is at least `every * p` has a quotient of at least `p`. */
  lemma QuotientOrder(every: nat, n: nat, p: nat)
    requires every > 0 && every * p <= n
    ensures p <= n / every
  {
    var q := n / every;
    assert n < every * q + every;
    assert every * (q + 1) == every * q + every;
    MulMonotone(every, q + 1, p);
  }

  // ---------- snapshots at every multiple ----------

  predicate IsMultiple(sequenceNr: nat, every: nat) {
    sequenceNr > 0 && every > 0 && sequenceNr % every == 0
  }

  /** The snapshots left with sequence number above `bound`. */
  function Above(snapshots: seq<nat>, bound: nat): seq<nat> {
    if snapshots == [] then []
    else
      var rest, last := Above(snapshots[..|snapshots| - 1], bound), snapshots[|snapshots| - 1];
      if last > bound then rest + [last] else rest
  }

  /** One event after the other, a snapshot at each multiple of `every`, and its retention. */
  function Survivors(every: U64, keep: U64, sequenceNr: U64): seq<nat>
    requires every > 0 && keep > 0
  {
    if sequenceNr == 0 then []
    else
      var before := Survivors(every, keep, sequenceNr - 1);
      if !IsMultiple(sequenceNr, every) then before
      else
        var taken := before + [sequenceNr];
        match OldestDeletable(every, keep, sequenceNr)
        case None => taken
        case Some(bound) => Above(taken, bound)
  }

  /** The `n` multiples of `every` that end with the multiple number `last`. */
  ghost predicate LastMultiples(s: seq<nat>, every: nat, last: nat, n: nat) {
    n <= last && |s| == n && forall i :: 0 <= i < n ==> s[i] == every * (last - n + 1 + i)
  }

  ghost function Min(a: nat, b: nat): nat {
    if a < b then a else b
  }

  /** After every step exactly the latest `min(keep, sequenceNr / every)` snapshots are left. */
  lemma {:induction false} SurvivorsAreLatest(every: U64, keep: U64, sequenceNr: U64)
    requires every > 0 && keep > 0
    ensures LastMultiples(Survivors(every, keep, sequenceNr), every, sequenceNr / every, Min(keep, sequenceNr / every))
  {
    if sequenceNr == 0 {
      assert 0 / every == 0;
    } else {
      SurvivorsAreLatest(every, keep, sequenceNr - 1);
      PreviousQuotient(every, sequenceNr);
      if IsMultiple(sequenceNr, every) {
        SnapshotTaken(every, keep, sequenceNr, Survivors(every, keep, sequenceNr - 1));
      }
    }
  }

  lemma SnapshotTaken(every: U64, keep: U64, sequenceNr: U64, before: seq<nat>)
    requires every > 0 && keep > 0 && IsMultiple(sequenceNr, every) && sequenceNr / every > 0
    requires LastMultiples(before, every, sequenceNr / every - 1, Min(keep, sequenceNr / every - 1))
    ensures var taken := before + [sequenceNr];
            var left := match OldestDeletable(every, keep, sequenceNr) case None => taken case Some(bound) => Above(taken, bound);
            LastMultiples(left, every, sequenceNr / every, Min(keep, sequenceNr / every))
  {
    var q := sequenceNr / every;
    assert sequenceNr == every * q;
    BoundIsExact(every, keep, sequenceNr);
    OneMore(before, every, keep, q);
  }

  /** A new snapshot, and the removal of the one that is too old. */
  lemma OneMore(before: seq<nat>, every: nat, keep: nat, q: nat)
    requires every > 0 && keep > 0 && q > 0 && LastMultiples(before, every, q - 1, Min(keep, q - 1))
    ensures q <= keep ==> LastMultiples(before + [every * q], every, q, q)
    ensures q > keep ==> LastMultiples(Above(before + [every * q], every * (q - keep)), every, q, keep)
  {
    var taken := before + [every * q];
    assert LastMultiples(taken, every, q, Min(keep, q - 1) + 1);
    if q > keep {
      DropFirst(taken, every, q, keep);
    }
  }

  lemma PreviousQuotient(every: nat, n: nat)
    requires every > 0 && n > 0
    ensures (n - 1) / every == if n % every == 0 then n / every - 1 else n / every
  {
    var q, r := n / every, n % every;
    assert n == every * q + r;
    if r == 0 {
      assert n - 1 == every * (q - 1) + (every - 1);
      QuotientIs(n - 1, every, q - 1, every - 1);
    } else {
      QuotientIs(n - 1, every, q, r - 1);
    }
  }

  lemma QuotientIs(n: nat, every: nat, q: int, r: nat)
    requires every > 0 && n == every * q + r && r < every
    ensures n / every == q
  {
    var p := n / every;
    assert every * p <= n < every * p + every;
    assert every * (p + 1) == every * p + every && every * (q + 1) == every * q + every;
    MulMonotone(every, p + 1, q);
    MulMonotone(every, q + 1, p);
  }

  /** Of `keep + 1` multiples the bound removes the first and no other. */
  lemma DropFirst(s: seq<nat>, every: nat, q: nat, keep: nat)
    requires every > 0 && q > keep && LastMultiples(s, every, q, keep + 1)
    ensures Above(s, every * (q - keep)) == s[1..]
  {
    assert s[0] == every * (q - keep);
    forall i | 1 <= i < |s| ensures s[i] > s[0] {
      assert s[i] == every * (q - keep + i) == s[0] + every * i;
      assert every * i >= i;
    }
    AboveAll(s, s[0]);
  }

  lemma {:induction false} AboveAll(s: seq<nat>, bound: nat)
    requires s != [] && s[0] <= bound && forall i :: 1 <= i < |s| ==> s[i] > bound
    ensures Above(s, bound) == s[1..]
  {
    if |s| == 1 {
      assert Above(s[..0], bound) == [];
    } else {
      AboveAll(s[..|s| - 1], bound);
      assert s[1..] == s[..|s| - 1][1..] + [s[|s| - 1]];
    }
  }
}
