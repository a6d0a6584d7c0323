/**
 The four-state child registry of an actor cell. `Container` is the value the cell
 holds; `ChildrenContainer` is the object that edits it in place.
 */
module ChildRegistry {
  import opened Options
  import opened Lists

  type Pid = nat
  type Cause = nat
  type Stats = nat

  const FRESH_STATS: Stats := 0

  datatype SuspendReason = UserRequest | Recreation(cause: Cause) | Termination

  datatype Child = Child(pid: Pid, stats: Stats)

  datatype Container =
    | Empty
    | Normal(c: seq<Child>)
    | Terminating(c: seq<Child>, toDie: seq<Pid>, reason: SuspendReason)
    | Terminated
  {
    function Entries(): seq<Child> {
      if Normal? || Terminating? then c else []
    }

    /** Registered pids in insertion order. */
    function Children(): seq<Pid> {
      Pids(Entries())
    }

    predicate Registered(pid: Pid) {
      HasChild(Entries(), pid)
    }

    predicate IsTerminating() {
      Terminated? || (Terminating? && reason.Termination?)
    }

    predicate InTerminatingVariant() {
      Terminating? || Terminated?
    }

    /** What every run of the registry keeps. */
    ghost predicate Valid() {
      && UniquePids(Entries())
      && (Normal? ==> c != [])
      && (Terminating? ==> toDie != [] && forall p <- toDie :: HasChild(c, p))
    }
  }

  function Pids(c: seq<Child>): seq<Pid> {
    seq(|c|, i requires 0 <= i < |c| => c[i].pid)
  }

  predicate HasChild(c: seq<Child>, pid: Pid) {
    exists i :: 0 <= i < |c| && c[i].pid == pid
  }

  ghost predicate UniquePids(c: seq<Child>) {
    forall i, j :: 0 <= i < j < |c| ==> c[i].pid != c[j].pid
  }

  /** The entries whose pid is not in `gone`. */
  function Without(c: seq<Child>, gone: set<Pid>): seq<Child> {
    if c == [] then []
    else if c[|c| - 1].pid in gone then Without(c[..|c| - 1], gone)
    else Without(c[..|c| - 1], gone) + [c[|c| - 1]]
  }

  function WithoutPids(s: seq<Pid>, gone: set<Pid>): seq<Pid> {
    if s == [] then []
    else if s[|s| - 1] in gone then WithoutPids(s[..|s| - 1], gone)
    else WithoutPids(s[..|s| - 1], gone) + [s[|s| - 1]]
  }

  function OfEntries(c: seq<Child>): Container {
    if c == [] then Empty else Normal(c)
  }

  function InsertIfAbsent(c: seq<Child>, pid: Pid): seq<Child> {
    if HasChild(c, pid) then c else c + [Child(pid, FRESH_STATS)]
  }

  // ---------- the operations ----------

  function AddChild(s: Container, pid: Pid): Container {
    match s
    case Empty => Normal([Child(pid, FRESH_STATS)])
    case Normal(c) => Normal(InsertIfAbsent(c, pid))
    case Terminating(c, toDie, reason) => Terminating(InsertIfAbsent(c, pid), toDie, reason)
    case Terminated => Terminated
  }

  function ShallDie(s: Container, pid: Pid): Container {
    match s
    case Normal(c) => Terminating(c, [pid], UserRequest)
    case Terminating(c, toDie, reason) => if pid in toDie then s else Terminating(c, toDie + [pid], reason)
    case _ => s
  }

  function SetReason(s: Container, reason: SuspendReason): (Container, bool) {
    if s.Terminating? then (Terminating(s.c, s.toDie, reason), true) else (s, false)
  }

  function Remove(s: Container, pid: Pid): (Container, Option<SuspendReason>) {
    match s
    case Normal(c) => (OfEntries(Without(c, {pid})), None)
    case Terminating(c, toDie, reason) =>
      var left, dying := Without(c, {pid}), WithoutPids(toDie, {pid});
      if dying != [] then (Terminating(left, dying, reason), None)
      else if reason.Termination? then (Terminated, Some(Termination))
      else (OfEntries(left), Some(reason))
    case _ => (s, None)
  }

  /** `stats_for_mut` followed by the strategy's update of the entry, when there is one. */
  function TouchStats(s: Container, pid: Pid, stats: Stats): Container {
    if s.Terminated? then s
    else
      var t := AddChild(s, pid);
      if t.Normal? then Normal(WithStats(t.c, pid, stats))
      else if t.Terminating? then Terminating(WithStats(t.c, pid, stats), t.toDie, t.reason)
      else t
  }

  function WithStats(c: seq<Child>, pid: Pid, stats: Stats): seq<Child> {
    seq(|c|, i requires 0 <= i < |c| => if c[i].pid == pid then Child(pid, stats) else c[i])
  }

  /** `shall_die` for each pid in turn. */
  function MarkAll(s: Container, pids: seq<Pid>): Container {
    if pids == [] then s else ShallDie(MarkAll(s, pids[..|pids| - 1]), pids[|pids| - 1])
  }

  // ---------- filters ----------

  lemma {:induction false} WithoutKeeps(c: seq<Child>, gone: set<Pid>)
    ensures forall p :: HasChild(Without(c, gone), p) <==> HasChild(c, p) && p !in gone
    ensures UniquePids(c) ==> UniquePids(Without(c, gone))
  {
    if c != [] {
      var front, last := c[..|c| - 1], c[|c| - 1];
      WithoutKeeps(front, gone);
      assert c == front + [last];
      forall p ensures HasChild(c, p) <==> HasChild(front, p) || p == last.pid {
        HasChildAppend(front, last, p);
      }
      forall p ensures HasChild(Without(front, gone) + [last], p) <==> HasChild(Without(front, gone), p) || p == last.pid {
        HasChildAppend(Without(front, gone), last, p);
      }
      if UniquePids(c) {
        assert UniquePids(front);
        assert !HasChild(front, last.pid);
      }
    }
  }

  lemma HasChildAppend(c: seq<Child>, e: Child, p: Pid)
    ensures HasChild(c + [e], p) <==> HasChild(c, p) || p == e.pid
  {
    var d := c + [e];
    if HasChild(c, p) {
      var i :| 0 <= i < |c| && c[i].pid == p;
      assert d[i].pid == p;
    }
    assert d[|c|] == e;
  }

  lemma {:induction false} WithoutPidsKeeps(s: seq<Pid>, gone: set<Pid>)
    ensures forall p :: p in WithoutPids(s, gone) <==> p in s && p !in gone
    ensures WithoutPids(s, gone) == [] <==> forall p :: p in s ==> p in gone
  {
    if s != [] {
      WithoutPidsKeeps(s[..|s| - 1], gone);
      assert s == s[..|s| - 1] + [s[|s| - 1]];
    }
  }

  lemma {:induction false} WithoutTwice(c: seq<Child>, a: set<Pid>, b: set<Pid>)
    ensures Without(Without(c, a), b) == Without(c, a + b)
  {
    if c != [] {
      var front, last := c[..|c| - 1], c[|c| - 1];
      WithoutTwice(front, a, b);
      if last.pid !in a {
        assert (Without(front, a) + [last])[..|Without(front, a)|] == Without(front, a);
      }
    }
  }

  lemma {:induction false} WithoutPidsTwice(s: seq<Pid>, a: set<Pid>, b: set<Pid>)
    ensures WithoutPids(WithoutPids(s, a), b) == WithoutPids(s, a + b)
  {
    if s != [] {
      var front, last := s[..|s| - 1], s[|s| - 1];
      WithoutPidsTwice(front, a, b);
      if last !in a {
        assert (WithoutPids(front, a) + [last])[..|WithoutPids(front, a)|] == WithoutPids(front, a);
      }
    }
  }

  lemma {:induction false} WithoutNone(c: seq<Child>)
    ensures Without(c, {}) == c
  {
    if c != [] {
      WithoutNone(c[..|c| - 1]);
    }
  }

  lemma {:induction false} WithoutPidsNone(s: seq<Pid>)
    ensures WithoutPids(s, {}) == s
  {
    if s != [] {
      WithoutPidsNone(s[..|s| - 1]);
    }
  }

  lemma {:induction false} MarkAllKeeps(a: Container, xs: seq<Pid>)
    ensures MarkAll(a, xs).Entries() == a.Entries()
    ensures a.Terminating? ==> MarkAll(a, xs).Terminating? && MarkAll(a, xs).reason == a.reason
    ensures !a.Terminating? && MarkAll(a, xs).Terminating? ==> MarkAll(a, xs).reason == UserRequest
  {
    if xs != [] {
      MarkAllKeeps(a, xs[..|xs| - 1]);
    }
  }

  /** Marking adds exactly the marked pids to those that have to die. */
  lemma {:induction false} MarkAllDying(a: Container, xs: seq<Pid>, p: Pid)
    requires a.Terminating? || (a.Normal? && xs != [])
    ensures MarkAll(a, xs).Terminating?
    ensures p in MarkAll(a, xs).toDie <==> p in xs || (a.Terminating? && p in a.toDie)
  {
    if xs != [] {
      var front, last := xs[..|xs| - 1], xs[|xs| - 1];
      assert xs == front + [last];
      if front != [] || a.Terminating? {
        MarkAllDying(a, front, p);
      }
    }
  }

  /** Marking registered children keeps the registry valid. */
  lemma {:induction false} MarkAllValid(a: Container, xs: seq<Pid>)
    requires a.Valid() && forall x <- xs :: a.Registered(x)
    ensures MarkAll(a, xs).Valid() && (MarkAll(a, xs).Terminated? <==> a.Terminated?)
  {
    if xs != [] {
      var front, last := xs[..|xs| - 1], xs[|xs| - 1];
      assert xs == front + [last];
      MarkAllValid(a, front);
      MarkAllKeeps(a, front);
      assert a.Registered(last) && MarkAll(a, front).Registered(last);
      StepKeepsValid(MarkAll(a, front), OpShallDie(last));
    }
  }

  lemma ChildrenListed(c: Container, x: Pid)
    ensures x in c.Children() <==> c.Registered(x)
    ensures UniquePids(c.Entries()) ==> Distinct(c.Children())
  {
    var e, ps := c.Entries(), c.Children();
    assert |ps| == |e| && forall i :: 0 <= i < |e| ==> ps[i] == e[i].pid;
  }

  // ---------- every run keeps the registry valid ----------

  datatype Op =
    | OpAdd(pid: Pid)
    | OpShallDie(pid: Pid)
    | OpSetReason(reason: SuspendReason)
    | OpRemove(pid: Pid)
    | OpTouch(pid: Pid, stats: Stats)

  function Apply(s: Container, op: Op): Container {
    match op
    case OpAdd(p) => AddChild(s, p)
    case OpShallDie(p) => ShallDie(s, p)
    case OpSetReason(r) => SetReason(s, r).0
    case OpRemove(p) => Remove(s, p).0
    case OpTouch(p, stats) => TouchStats(s, p, stats)
  }

  /** Only registered children are marked to die, as every caller of `shall_die` does. */
  ghost predicate Admissible(s: Container, op: Op) {
    op.OpShallDie? && !s.Empty? && !s.Terminated? ==> s.Registered(op.pid)
  }

  lemma InsertKeeps(c: seq<Child>, pid: Pid)
    requires UniquePids(c)
    ensures UniquePids(InsertIfAbsent(c, pid))
    ensures forall p :: HasChild(InsertIfAbsent(c, pid), p) <==> HasChild(c, p) || p == pid
  {
    forall p ensures HasChild(InsertIfAbsent(c, pid), p) <==> HasChild(c, p) || p == pid {
      HasChildAppend(c, Child(pid, FRESH_STATS), p);
    }
  }

  lemma StatsKeep(c: seq<Child>, pid: Pid, stats: Stats)
    ensures UniquePids(c) ==> UniquePids(WithStats(c, pid, stats))
    ensures forall p :: HasChild(WithStats(c, pid, stats), p) <==> HasChild(c, p)
  {
    var d := WithStats(c, pid, stats);
    assert forall i :: 0 <= i < |c| ==> d[i].pid == c[i].pid;
  }

  /** The statistics of `pid`, if it is there. */
  function StatsOf(c: seq<Child>, pid: Pid): Option<Stats> {
    if c == [] then None
    else if c[0].pid == pid then Some(c[0].stats)
    else StatsOf(c[1..], pid)
  }

  lemma {:induction false} StatsOfAppend(c: seq<Child>, e: Child, p: Pid)
    ensures StatsOf(c + [e], p) == if StatsOf(c, p).Some? then StatsOf(c, p) else if e.pid == p then Some(e.stats) else None
    ensures StatsOf(c, p).Some? <==> HasChild(c, p)
  {
    if c != [] {
      StatsOfAppend(c[1..], e, p);
      assert (c + [e])[1..] == c[1..] + [e];
      if HasChild(c, p) && c[0].pid != p {
        var i :| 0 <= i < |c| && c[i].pid == p;
        assert c[1..][i - 1].pid == p;
      }
      if HasChild(c[1..], p) {
        var i :| 0 <= i < |c[1..]| && c[1..][i].pid == p;
        assert c[i + 1].pid == p;
      }
    }
  }

  lemma {:induction false} StatsOfTouched(c: seq<Child>, pid: Pid, stats: Stats, p: Pid)
    ensures StatsOf(WithStats(c, pid, stats), p)
            == if p == pid && StatsOf(c, p).Some? then Some(stats) else StatsOf(c, p)
  {
    if c != [] {
      StatsOfTouched(c[1..], pid, stats, p);
      assert WithStats(c, pid, stats)[1..] == WithStats(c[1..], pid, stats);
    }
  }

  /**
   A failure touches the statistics of its own child and of no other: in every registry that
   is not Terminated the child is there afterwards with the new ones, the other
   children keep theirs, and the order stays.
   */
  lemma TouchesOne(s: Container, pid: Pid, stats: Stats, p: Pid)
    requires !s.Terminated?
    ensures var t := TouchStats(s, pid, stats);
            && StatsOf(t.Entries(), p) == (if p == pid then Some(stats) else StatsOf(s.Entries(), p))
            && t.Children() == (if s.Registered(pid) then s.Children() else s.Children() + [pid])
            && (s.Terminating? ==> t.Terminating? && t.toDie == s.toDie && t.reason == s.reason)
  {
    var c := s.Entries();
    StatsOfAppend(c, Child(pid, FRESH_STATS), p);
    var d := InsertIfAbsent(c, pid);
    assert d == AddChild(s, pid).Entries();
    StatsOfTouched(d, pid, stats, p);
    assert Pids(WithStats(d, pid, stats)) == Pids(d);
    assert !HasChild(c, pid) ==> Pids(d) == Pids(c) + [pid];
  }

  lemma StepKeepsValid(s: Container, op: Op)
    requires s.Valid() && Admissible(s, op)
    ensures Apply(s, op).Valid()
    ensures s.Terminated? ==> Apply(s, op).Terminated?
  {
    var c := s.Entries();
    match op {
      case OpAdd(p) => InsertKeeps(c, p);
      case OpTouch(p, stats) =>
        InsertKeeps(c, p);
        StatsKeep(AddChild(s, p).Entries(), p, stats);
      case OpShallDie(p) =>
      case OpSetReason(_) =>
      case OpRemove(p) =>
        WithoutKeeps(c, {p});
        if s.Terminating? {
          WithoutPidsKeeps(s.toDie, {p});
        }
    }
  }

  /** `trace` records the registry before and after each operation of an admissible run. */
  ghost predicate IsRun(trace: seq<Container>, ops: seq<Op>) {
    && |trace| == |ops| + 1
    && trace[0] == Empty
    && (forall i :: 0 <= i < |ops| ==> Admissible(trace[i], ops[i]) && trace[i + 1] == Apply(trace[i], ops[i]))
  }

  /** Unique pids, a non-empty Normal, a non-empty `toDie` of registered children, and a final Terminated. */
  lemma {:induction false} RunKeepsValid(trace: seq<Container>, ops: seq<Op>, i: nat)
    requires IsRun(trace, ops) && i < |trace|
    ensures trace[i].Valid()
    ensures trace[i].Terminated? ==> trace[|trace| - 1].Terminated?
    decreases |trace| - i, i
  {
    ValidAt(trace, ops, i);
    if i < |ops| {
      StepKeepsValid(trace[i], ops[i]);
      RunKeepsValid(trace, ops, i + 1);
    }
  }

  lemma {:induction false} ValidAt(trace: seq<Container>, ops: seq<Op>, i: nat)
    requires IsRun(trace, ops) && i < |trace|
    ensures trace[i].Valid()
  {
    if i > 0 {
      ValidAt(trace, ops, i - 1);
      StepKeepsValid(trace[i - 1], ops[i - 1]);
    }
  }

  // ---------- removals in any order ----------

  ghost function PidSet(s: seq<Pid>): set<Pid> {
    set p | p in s
  }

  function RemoveEach(s: Container, ps: seq<Pid>): Container {
    if ps == [] then s else Remove(RemoveEach(s, ps[..|ps| - 1]), ps[|ps| - 1]).0
  }

  /** What the removal of `ps[k]` reports, after the removals before it. */
  function ReportAt(s: Container, ps: seq<Pid>, k: nat): Option<SuspendReason>
    requires k < |ps|
  {
    Remove(RemoveEach(s, ps[..k]), ps[k]).1
  }

  /** The registry left when the last child that had to die is gone. */
  function Settled(c: seq<Child>, gone: set<Pid>, reason: SuspendReason): Container {
    if reason.Termination? then Terminated else OfEntries(Without(c, gone))
  }

  /** While someone still has to die, removals only shrink the two lists. */
  lemma {:induction false} RemoveEachWaiting(c: seq<Child>, toDie: seq<Pid>, reason: SuspendReason, ps: seq<Pid>)
    requires toDie != []
    requires exists p :: p in toDie && p !in ps
    ensures RemoveEach(Terminating(c, toDie, reason), ps)
            == Terminating(Without(c, PidSet(ps)), WithoutPids(toDie, PidSet(ps)), reason)
  {
    if ps == [] {
      assert PidSet(ps) == {};
      WithoutNone(c);
      WithoutPidsNone(toDie);
    } else {
      var front, last := ps[..|ps| - 1], ps[|ps| - 1];
      RemoveEachWaiting(c, toDie, reason, front);
      assert PidSet(ps) == PidSet(front) + {last};
      WithoutTwice(c, PidSet(front), {last});
      WithoutPidsTwice(toDie, PidSet(front), {last});
      WithoutPidsKeeps(toDie, PidSet(ps));
    }
  }

  /**
   For any arrival order, with repetitions and strangers: nothing is reported while a
   child still has to die, and the removal that takes the last one reports the reason
   and settles the registry in a state that does not depend on the order.
   */
  lemma LastRemovalReports(c: seq<Child>, toDie: seq<Pid>, reason: SuspendReason, ps: seq<Pid>, k: nat)
    requires toDie != [] && k < |ps|
    requires exists p :: p in toDie && p !in ps[..k]
    ensures (forall p :: p in toDie ==> p in ps[..k + 1]) ==>
              && ReportAt(Terminating(c, toDie, reason), ps, k) == Some(reason)
              && RemoveEach(Terminating(c, toDie, reason), ps[..k + 1]) == Settled(c, PidSet(ps[..k + 1]), reason)
    ensures (exists p :: p in toDie && p !in ps[..k + 1]) ==>
              ReportAt(Terminating(c, toDie, reason), ps, k) == None
  {
    var front, all := ps[..k], ps[..k + 1];
    RemoveEachWaiting(c, toDie, reason, front);
    assert all[..|all| - 1] == front;
    assert PidSet(all) == PidSet(front) + {ps[k]};
    WithoutTwice(c, PidSet(front), {ps[k]});
    WithoutPidsTwice(toDie, PidSet(front), {ps[k]});
    WithoutPidsKeeps(toDie, PidSet(all));
  }

  /** Removing exactly the children that had to die ends in one state, whatever the order. */
  lemma RemovalOrderIrrelevant(c: seq<Child>, toDie: seq<Pid>, reason: SuspendReason, ps: seq<Pid>, qs: seq<Pid>)
    requires toDie != [] && Distinct(ps) && Distinct(qs)
    requires PidSet(ps) == PidSet(toDie) == PidSet(qs)
    ensures RemoveEach(Terminating(c, toDie, reason), ps) == RemoveEach(Terminating(c, toDie, reason), qs)
  {
    assert toDie[0] in PidSet(toDie);
    SettlesOnLast(c, toDie, reason, ps);
    SettlesOnLast(c, toDie, reason, qs);
  }

  lemma SettlesOnLast(c: seq<Child>, toDie: seq<Pid>, reason: SuspendReason, ps: seq<Pid>)
    requires ps != [] && Distinct(ps) && PidSet(ps) == PidSet(toDie)
    ensures RemoveEach(Terminating(c, toDie, reason), ps) == Settled(c, PidSet(toDie), reason)
  {
    var k := |ps| - 1;
    assert ps[k] in PidSet(ps) && ps[k] in toDie && ps[k] !in ps[..k];
    assert ps[..k + 1] == ps;
    forall p | p in toDie ensures p in ps {
      assert p in PidSet(toDie);
    }
    LastRemovalReports(c, toDie, reason, ps, k);
  }

  // ---------- the object ----------

  class ChildrenContainer {
    var state: Container

    constructor ()
      ensures state == Empty
    {
      state := Empty;
    }

    method Add(pid: Pid)
      modifies this
      ensures state == AddChild(old(state), pid)
    {
      match state {
        case Empty => state := Normal([Child(pid, FRESH_STATS)]);
        case Normal(c) =>
          var d := InsertChild(c, pid);
          state := Normal(d);
        case Terminating(c, toDie, reason) =>
          var d := InsertChild(c, pid);
          state := Terminating(d, toDie, reason);
        case Terminated =>
      }
    }

    method MarkDying(pid: Pid)
      modifies this
      ensures state == ShallDie(old(state), pid)
    {
      match state {
        case Empty =>
        case Terminated =>
        case Normal(c) => state := Terminating(c, [pid], UserRequest);
        case Terminating(c, toDie, reason) =>
          if pid !in toDie {
            state := Terminating(c, toDie + [pid], reason);
          }
      }
    }

    method SetTerminationReason(reason: SuspendReason) returns (updated: bool)
      modifies this
      ensures (state, updated) == SetReason(old(state), reason)
    {
      updated := state.Terminating?;
      if updated {
        state := state.(reason := reason);
      }
    }

    method RemoveAndGetStateChange(pid: Pid) returns (change: Option<SuspendReason>)
      modifies this
      ensures (state, change) == Remove(old(state), pid)
    {
      match state {
        case Empty => return None;
        case Terminated => return None;
        case Normal(c) =>
          var left := RetainChildren(c, pid);
          state := if left == [] then Empty else Normal(left);
          return None;
        case Terminating(c, toDie, reason) =>
          var left := RetainChildren(c, pid);
          var dying := RetainPids(toDie, pid);
          if dying != [] {
            state := Terminating(left, dying, reason);
            return None;
          }
          match reason {
            case Termination =>
              state := Terminated;
              return Some(Termination);
            case _ =>
              state := if left == [] then Empty else Normal(left);
              return Some(reason);
          }
      }
    }

    method UpdateStats(pid: Pid, stats: Stats) returns (known: bool)
      modifies this
      ensures state == TouchStats(old(state), pid, stats)
      ensures known == !old(state).Terminated?
    {
      match state {
        case Terminated => return false;
        case Empty =>
          state := Normal([Child(pid, stats)]);
        case Normal(c) =>
          var d := InsertChild(c, pid);
          state := Normal(WithStats(d, pid, stats));
        case Terminating(c, toDie, reason) =>
          var d := InsertChild(c, pid);
          state := Terminating(WithStats(d, pid, stats), toDie, reason);
      }
      return true;
    }
  }

  method InsertChild(c: seq<Child>, pid: Pid) returns (r: seq<Child>)
    ensures r == InsertIfAbsent(c, pid)
  {
    for i := 0 to |c|
      invariant forall j :: 0 <= j < i ==> c[j].pid != pid
    {
      if c[i].pid == pid {
        return c;
      }
    }
    return c + [Child(pid, FRESH_STATS)];
  }

  method RetainChildren(c: seq<Child>, pid: Pid) returns (r: seq<Child>)
    ensures r == Without(c, {pid})
  {
    r := [];
    for i := 0 to |c|
      invariant r == Without(c[..i], {pid})
    {
      assert c[..i + 1][..i] == c[..i];
      if c[i].pid != pid {
        r := r + [c[i]];
      }
    }
    assert c[..|c|] == c;
  }

  method RetainPids(s: seq<Pid>, pid: Pid) returns (r: seq<Pid>)
    ensures r == WithoutPids(s, {pid})
  {
    r := [];
    for i := 0 to |s|
      invariant r == WithoutPids(s[..i], {pid})
    {
      assert s[..i + 1][..i] == s[..i];
      if s[i] != pid {
        r := r + [s[i]];
      }
    }
    assert s[..|s|] == s;
  }
}
