/**
 The suspend counter of every actor covers whatever will take from it: unanswered
 failure reports, queued restarts and resumes, a deferred restart, and the resumes
 that can still come down from above.
 */
module SuspendCoverage {
  import opened Options
  import opened Lists
  import opened ChildRegistry
  import opened DeathWatch
  import opened Supervision

  // ---------- what a queue will take from the suspend counter ----------

  /** The count needed before `m`, when `n` is needed after it. */
  function Before(m: SysMsg, n: nat): nat {
    match m
    case Suspend => if n == 0 then 0 else n - 1
    case Resume => n + 1
    case Recreate(_) => n + 1
    case _ => n
  }

  /** The same for the children: a restart does not resume them. */
  function WaveBefore(m: SysMsg, n: nat): nat {
    if m.Recreate? then n else Before(m, n)
  }

  /** The suspend count with which a cell can handle `q` and then has `n` left. */
  function Need(q: seq<SysMsg>, n: nat): nat {
    if q == [] then n else Before(q[0], Need(q[1..], n))
  }

  function WaveNeed(q: seq<SysMsg>, n: nat): nat {
    if q == [] then n else WaveBefore(q[0], WaveNeed(q[1..], n))
  }

  function CountFailures(q: seq<SysMsg>, p: Pid): nat {
    if q == [] then 0
    else CountFailures(q[..|q| - 1], p) + (if q[|q| - 1].Failure? && q[|q| - 1].child == p then 1 else 0)
  }

  lemma {:induction false} NeedMonotone(q: seq<SysMsg>, m: nat, n: nat)
    requires m <= n
    ensures Need(q, m) <= Need(q, n) <= Need(q, m) + (n - m)
    ensures WaveNeed(q, m) <= WaveNeed(q, n) <= WaveNeed(q, m) + (n - m)
  {
    if q != [] {
      NeedMonotone(q[1..], m, n);
    }
  }

  lemma {:induction false} NeedAppend(q: seq<SysMsg>, m: SysMsg, n: nat)
    ensures Need(q + [m], n) == Need(q, Before(m, n))
    ensures WaveNeed(q + [m], n) == WaveNeed(q, WaveBefore(m, n))
  {
    if q == [] {
      assert q + [m] == [m];
      assert [m][1..] == [];
    } else {
      NeedAppend(q[1..], m, n);
      assert (q + [m])[1..] == q[1..] + [m];
    }
  }

  lemma {:induction false} WaveNeedBelow(q: seq<SysMsg>, n: nat)
    ensures WaveNeed(q, n) <= Need(q, n)
  {
    if q != [] {
      WaveNeedBelow(q[1..], n);
    }
  }

  lemma {:induction false} CountFailuresTail(q: seq<SysMsg>, p: Pid)
    requires q != []
    ensures CountFailures(q, p) == CountFailures(q[1..], p) + (if q[0].Failure? && q[0].child == p then 1 else 0)
  {
    if |q| > 1 {
      CountFailuresTail(q[..|q| - 1], p);
      assert q[..|q| - 1][1..] == q[1..][..|q| - 2];
    }
  }

  // ---------- the invariant ----------

  /** Parents are older than their children, and children lists and reports follow the parent links. */
  ghost predicate Wired(s: System) {
    forall p {:trigger CellWired(s, p)} :: p in s ==> CellWired(s, p)
  }

  ghost predicate CellWired(s: System, p: Pid)
    requires p in s
  {
    && (s[p].parent.Some? ==> s[p].parent.value < p && s[p].parent.value in s)
    && (forall x :: s[p].Supervises(x) ==> x in s && s[x].parent == Some(p))
    && UniquePids(s[p].registry.children.Entries())
    && (forall k :: 0 <= k < |s[p].inbox| ==> FromChild(s, p, s[p].inbox[k]))
  }

  ghost predicate FromChild(s: System, p: Pid, m: SysMsg) {
    m.Failure? ==> m.child in s && s[m.child].parent == Some(p)
  }

  /** Failure reports of `x` its parent has not answered yet. */
  ghost function Reports(s: System, x: Pid): nat
    requires x in s
  {
    if s[x].parent.Some? && s[x].parent.value in s then CountFailures(s[s[x].parent.value].inbox, x) else 0
  }

  /** Resumes that can still come down to `x` from above. */
  ghost function Upstream(s: System, x: Pid): nat
    requires Wired(s) && x in s
    decreases x, 0
  {
    match s[x].parent
    case None => 0
    case Some(p) =>
      assert CellWired(s, x);
      if Open(s, p) && s[p].Supervises(x) then Wave(s, p) else 0
  }

  /** Resumes that can still pass through `p` to its children. */
  ghost function Wave(s: System, p: Pid): nat
    requires Wired(s) && p in s
    decreases p, 1
  {
    Reports(s, p) + WaveNeed(s[p].inbox, Upstream(s, p))
  }

  /** The suspend counter covers everything that will take from it. */
  ghost predicate Covered(s: System, x: Pid)
    requires Wired(s) && x in s
  {
    s[x].suspends >= s[x].Deferred() + Reports(s, x) + Need(s[x].inbox, Upstream(s, x))
  }

  ghost predicate Invariant(s: System) {
    Wired(s) && forall x :: Open(s, x) ==> Covered(s, x)
  }

  /** What the restart relies on: a `Recreate` about to be handled finds the mailbox suspended. */
  lemma RecreateFindsSuspended(s: System, x: Pid)
    requires Invariant(s) && Open(s, x) && s[x].inbox != [] && s[x].inbox[0].Recreate?
    ensures s[x].IsSuspended()
  {
    assert Covered(s, x);
  }

  /** An actor that is not suspended has no resume wave outstanding below it. */
  lemma UnsuspendedHasNoWave(s: System, p: Pid)
    requires Invariant(s) && Open(s, p)
    ensures Wave(s, p) <= s[p].suspends
  {
    assert Covered(s, p);
    WaveNeedBelow(s[p].inbox, Upstream(s, p));
  }

  // ---------- changes that keep the invariant ----------

  ghost function Bonus(b: set<Pid>, x: Pid): nat {
    if x in b then 1 else 0
  }

  /** Whatever comes from above, `x` is asked for at most as much as before, and for one less with a bonus. */
  ghost predicate OwnKept(s: System, t: System, x: Pid, bonus: nat)
    requires x in s && x in t
  {
    forall n: nat ::
      t[x].Deferred() + Reports(t, x) + Need(t[x].inbox, n) + s[x].suspends + bonus
      <= s[x].Deferred() + Reports(s, x) + Need(s[x].inbox, n) + t[x].suspends
  }

  /** The same for what `x` passes down; `credit` allows more and `bonus` demands less. */
  ghost predicate WaveKept(s: System, t: System, x: Pid, bonus: nat, credit: nat)
    requires x in s && x in t
  {
    forall n: nat ::
      Reports(t, x) + WaveNeed(t[x].inbox, n) + bonus <= Reports(s, x) + WaveNeed(s[x].inbox, n) + credit
  }

  /** Same actors and links, and nobody reopens or gains children. */
  ghost predicate SameTree(s: System, t: System) {
    && t.Keys == s.Keys
    && (forall x :: x in s ==> t[x].parent == s[x].parent)
    && (forall x :: Open(t, x) ==> Open(s, x))
    && (forall p, x :: p in s && t[p].Supervises(x) ==> s[p].Supervises(x))
  }

  /** Nobody is asked for more; members of `b` (own counter) and `w` (waves) for one less. */
  ghost predicate EasesBy(s: System, t: System, b: set<Pid>, w: set<Pid>) {
    && Wired(s) && Wired(t) && SameTree(s, t)
    && (forall x {:trigger Kept(s, t, x, b, w)} :: x in s ==> Kept(s, t, x, b, w))
  }

  ghost predicate Kept(s: System, t: System, x: Pid, b: set<Pid>, w: set<Pid>)
    requires x in s && x in t
  {
    OwnKept(s, t, x, Bonus(b, x)) && WaveKept(s, t, x, Bonus(w, x), 0)
  }

  ghost predicate Eases(s: System, t: System) {
    EasesBy(s, t, {}, {})
  }

  lemma {:induction false} EasesWave(s: System, t: System, x: Pid)
    requires Eases(s, t) && x in s
    ensures Upstream(t, x) <= Upstream(s, x) && Wave(t, x) <= Wave(s, x)
    decreases x
  {
    assert CellWired(s, x);
    if s[x].parent.Some? {
      EasesWave(s, t, s[x].parent.value);
    }
    assert Kept(s, t, x, {}, {});
    NeedMonotone(t[x].inbox, Upstream(t, x), Upstream(s, x));
  }

  lemma EasesKeeps(s: System, t: System)
    requires Invariant(s) && Eases(s, t)
    ensures Invariant(t)
  {
    forall x | Open(t, x) ensures Covered(t, x) {
      EasesWave(s, t, x);
      assert Covered(s, x) && Kept(s, t, x, {}, {});
      NeedMonotone(t[x].inbox, Upstream(t, x), Upstream(s, x));
    }
  }

  lemma EasesCompose(s: System, t: System, u: System, b: set<Pid>, w: set<Pid>, c: set<Pid>, v: set<Pid>)
    requires EasesBy(s, t, b, w) && EasesBy(t, u, c, v) && b !! c && w !! v
    ensures EasesBy(s, u, b + c, w + v)
  {
    forall x | x in s ensures Kept(s, u, x, b + c, w + v) {
      assert Kept(s, t, x, b, w) && Kept(t, u, x, c, v);
    }
  }

  lemma EasesTrans(s: System, t: System, u: System)
    requires Eases(s, t) && Eases(t, u)
    ensures Eases(s, u)
  {
    EasesCompose(s, t, u, {}, {}, {}, {});
    var none: set<Pid> := {};
    assert none + none == none;
  }

  lemma EasesForget(s: System, t: System, b: set<Pid>, w: set<Pid>)
    requires EasesBy(s, t, b, w)
    ensures Eases(s, t)
  {
    forall x | x in s ensures Kept(s, t, x, {}, {}) {
      assert Kept(s, t, x, b, w);
    }
  }

  /** `p` may pass down one resume more, and every child got a Suspend to pay for it. */
  ghost predicate Credits(s: System, t: System, p: Pid) {
    && Wired(s) && Wired(t) && SameTree(s, t) && p in s
    && (forall x {:trigger Credited(s, t, p, x)} :: x in s ==> Credited(s, t, p, x))
  }

  ghost predicate Credited(s: System, t: System, p: Pid, x: Pid)
    requires x in s && x in t && p in s && p in t
  {
    && OwnKept(s, t, x, 0) && WaveKept(s, t, x, 0, if x == p then 1 else 0)
    && (Fed(t, p, x) ==>
          && t[x].inbox == s[x].inbox + [Suspend] && Reports(t, x) <= Reports(s, x)
          && t[x].Deferred() + s[x].suspends <= s[x].Deferred() + t[x].suspends)
  }

  /** The waves of `p` reach `x`. */
  ghost predicate Fed(s: System, p: Pid, x: Pid)
    requires x in s
  {
    s[x].parent == Some(p) && Open(s, p) && s[p].Supervises(x) && Open(s, x)
  }

  lemma {:induction false} CreditsWave(s: System, t: System, p: Pid, x: Pid)
    requires Credits(s, t, p) && x in s && (Open(t, x) || x == p)
    ensures Fed(t, p, x) ==> Upstream(t, x) <= Upstream(s, x) + 1
    ensures !Fed(t, p, x) ==> Upstream(t, x) <= Upstream(s, x)
    ensures Wave(t, x) <= Wave(s, x) + (if x == p then 1 else 0)
    decreases x
  {
    assert CellWired(s, x) && Credited(s, t, p, x);
    if s[x].parent.Some? && Open(t, s[x].parent.value) {
      CreditsWave(s, t, p, s[x].parent.value);
    }
    var u, v := Upstream(s, x), Upstream(t, x);
    if Fed(t, p, x) {
      NeedAppend(s[x].inbox, Suspend, v);
      NeedMonotone(s[x].inbox, Before(Suspend, v), u);
    } else {
      NeedMonotone(t[x].inbox, v, u);
    }
  }

  lemma CreditsKeeps(s: System, t: System, p: Pid)
    requires Invariant(s) && Credits(s, t, p)
    ensures Invariant(t)
  {
    forall x | Open(t, x) ensures Covered(t, x) {
      CreditsWave(s, t, p, x);
      assert Covered(s, x) && Credited(s, t, p, x);
      var u, v := Upstream(s, x), Upstream(t, x);
      if Fed(t, p, x) {
        NeedAppend(s[x].inbox, Suspend, v);
        NeedMonotone(s[x].inbox, Before(Suspend, v), u);
      } else {
        NeedMonotone(t[x].inbox, v, u);
      }
    }
  }

  /** `p` passed one resume on: it owes one less, and every child got that Resume. */
  ghost predicate Debits(s: System, t: System, p: Pid) {
    && Wired(s) && Wired(t) && SameTree(s, t) && p in s && Open(s, p)
    && (forall x {:trigger Debited(s, t, p, x)} :: x in s ==> Debited(s, t, p, x))
  }

  ghost predicate Debited(s: System, t: System, p: Pid, x: Pid)
    requires x in s && x in t && p in s && p in t
  {
    if Fed(s, p, x) then
      && t[x].inbox == s[x].inbox + [Resume] && Reports(t, x) == Reports(s, x)
      && t[x].suspends == s[x].suspends && t[x].Deferred() == s[x].Deferred()
    else
      OwnKept(s, t, x, 0) && WaveKept(s, t, x, if x == p then 1 else 0, 0)
  }

  lemma {:induction false} DebitsWave(s: System, t: System, p: Pid, x: Pid)
    requires Debits(s, t, p) && x in s
    ensures Upstream(t, x) + (if Fed(s, p, x) then 1 else 0) <= Upstream(s, x)
    ensures Wave(t, x) + (if x == p then 1 else 0) <= Wave(s, x)
    decreases x
  {
    assert CellWired(s, x) && Debited(s, t, p, x);
    if s[x].parent.Some? {
      DebitsWave(s, t, p, s[x].parent.value);
    }
    var u, v := Upstream(s, x), Upstream(t, x);
    if Fed(s, p, x) {
      NeedAppend(s[x].inbox, Resume, v);
      NeedMonotone(s[x].inbox, v + 1, u);
    } else {
      NeedMonotone(t[x].inbox, v, u);
    }
  }

  lemma DebitsKeeps(s: System, t: System, p: Pid)
    requires Invariant(s) && Debits(s, t, p)
    ensures Invariant(t)
  {
    forall x | Open(t, x) ensures Covered(t, x) {
      DebitsWave(s, t, p, x);
      assert Covered(s, x) && Debited(s, t, p, x);
      var u, v := Upstream(s, x), Upstream(t, x);
      if Fed(s, p, x) {
        NeedAppend(s[x].inbox, Resume, v);
        NeedMonotone(s[x].inbox, v + 1, u);
      } else {
        NeedMonotone(t[x].inbox, v, u);
      }
    }
  }

  // ---------- elementary changes ----------

  /** Messages that never take from a suspend counter and report nothing. */
  predicate Calm(m: SysMsg) {
    !m.Resume? && !m.Recreate? && !m.Failure?
  }

  lemma CalmNeed(q: seq<SysMsg>, m: SysMsg, n: nat)
    requires Calm(m)
    ensures Need(q + [m], n) <= Need(q, n) && WaveNeed(q + [m], n) <= WaveNeed(q, n)
  {
    NeedAppend(q, m, n);
    NeedMonotone(q, Before(m, n), n);
  }

  lemma SendWired(s: System, to: Pid, m: SysMsg)
    requires Wired(s) && FromChild(s, to, m)
    ensures Wired(Send(s, to, m)) && SameTree(s, Send(s, to, m))
  {
    var t := Send(s, to, m);
    forall p | p in t ensures CellWired(t, p) {
      assert CellWired(s, p);
    }
  }

  lemma SendCalm(s: System, to: Pid, m: SysMsg)
    requires Wired(s) && Calm(m)
    ensures Eases(s, Send(s, to, m))
  {
    var t := Send(s, to, m);
    SendWired(s, to, m);
    forall x | x in s ensures Kept(s, t, x, {}, {}) {
      SendReports(s, to, m, x);
      forall n: nat
        ensures Need(s[x].inbox + [m], n) <= Need(s[x].inbox, n)
        ensures WaveNeed(s[x].inbox + [m], n) <= WaveNeed(s[x].inbox, n)
      {
        CalmNeed(s[x].inbox, m, n);
      }
    }
  }

  lemma SendReports(s: System, to: Pid, m: SysMsg, x: Pid)
    requires x in s
    ensures Reports(Send(s, to, m), x)
            == Reports(s, x) + (if Open(s, to) && s[x].parent == Some(to) && m.Failure? && m.child == x then 1 else 0)
  {
    if Open(s, to) {
      assert (s[to].inbox + [m])[..|s[to].inbox|] == s[to].inbox;
    }
  }

  lemma {:induction false} SendEachCalm(s: System, targets: seq<Pid>, m: SysMsg)
    requires Wired(s) && Calm(m)
    ensures Eases(s, SendEach(s, targets, m))
  {
    if targets != [] {
      var t := SendEach(s, targets[..|targets| - 1], m);
      SendEachCalm(s, targets[..|targets| - 1], m);
      SendCalm(t, targets[|targets| - 1], m);
      EasesTrans(s, t, SendEach(s, targets, m));
    } else {
      EasesSelf(s);
    }
  }

  lemma {:induction false} NotifyEachCalm(s: System, watchers: seq<Watch>, dead: Pid)
    requires Wired(s)
    ensures Eases(s, NotifyEach(s, watchers, dead))
  {
    if watchers != [] {
      var t := NotifyEach(s, watchers[..|watchers| - 1], dead);
      NotifyEachCalm(s, watchers[..|watchers| - 1], dead);
      SendCalm(t, watchers[|watchers| - 1].pid, DeathWatchNotification(dead));
      EasesTrans(s, t, NotifyEach(s, watchers, dead));
    } else {
      EasesSelf(s);
    }
  }

  lemma EasesSelf(s: System)
    requires Wired(s)
    ensures Eases(s, s)
  {
    forall x | x in s ensures Kept(s, s, x, {}, {}) {
    }
  }

  /** A change of one cell, with its inbox as it was or without its first message. */
  ghost predicate LocalChange(c: Cell, d: Cell) {
    && d.parent == c.parent && (c.stopped ==> d.stopped)
    && (forall x :: d.Supervises(x) ==> c.Supervises(x))
    && UniquePids(d.registry.children.Entries())
    && (d.inbox == c.inbox || (c.inbox != [] && d.inbox == c.inbox[1..]))
  }

  /** What handling `m` takes from the counter. */
  function Price(m: SysMsg): int {
    match m
    case Suspend => -1
    case Resume => 1
    case Recreate(_) => 1
    case _ => 0
  }

  lemma LocalEases(s: System, p: Pid, d: Cell)
    requires Wired(s) && p in s && LocalChange(s[p], d)
    requires d.inbox != s[p].inbox ==> !s[p].inbox[0].Failure? && !s[p].inbox[0].Suspend?
    requires d.inbox != s[p].inbox ==> d.Deferred() + s[p].suspends <= s[p].Deferred() + d.suspends + Price(s[p].inbox[0])
    requires d.inbox == s[p].inbox ==> d.Deferred() + s[p].suspends <= s[p].Deferred() + d.suspends
    ensures Eases(s, s[p := d])
  {
    var t := s[p := d];
    LocalWired(s, p, d);
    forall x | x in s ensures Kept(s, t, x, {}, {}) {
      LocalReports(s, p, d, x);
    }
  }

  lemma LocalWired(s: System, p: Pid, d: Cell)
    requires Wired(s) && p in s && LocalChange(s[p], d)
    ensures Wired(s[p := d]) && SameTree(s, s[p := d])
  {
    var t := s[p := d];
    forall q | q in t ensures CellWired(t, q) {
      assert CellWired(s, q);
    }
  }

  lemma LocalReports(s: System, p: Pid, d: Cell, x: Pid)
    requires Wired(s) && p in s && x in s && LocalChange(s[p], d)
    ensures Reports(s[p := d], x)
            == Reports(s, x) - (if d.inbox != s[p].inbox && s[p].inbox[0].Failure? && s[p].inbox[0].child == x then 1 else 0)
  {
    if d.inbox != s[p].inbox {
      CountFailuresTail(s[p].inbox, x);
      assert CellWired(s, p);
      assert FromChild(s, p, s[p].inbox[0]);
    }
  }

  // ---------- broadcasts ----------

  ghost function Received(s: System, x: Pid, targets: seq<Pid>, m: SysMsg): Cell
    requires x in s
  {
    if x in targets && Open(s, x) then s[x].(inbox := s[x].inbox + [m]) else s[x]
  }

  /** A broadcast appends one message to each open target and changes nothing else. */
  lemma {:induction false} SendEachResult(s: System, targets: seq<Pid>, m: SysMsg)
    requires Distinct(targets)
    ensures SendEach(s, targets, m).Keys == s.Keys
    ensures forall x :: x in s ==> SendEach(s, targets, m)[x] == Received(s, x, targets, m)
  {
    if targets != [] {
      var front := targets[..|targets| - 1];
      SendEachResult(s, front, m);
      assert targets == front + [targets[|targets| - 1]];
    }
  }

  lemma CountFailuresAppend(q: seq<SysMsg>, m: SysMsg, p: Pid)
    ensures CountFailures(q + [m], p) == CountFailures(q, p) + (if m.Failure? && m.child == p then 1 else 0)
  {
    assert (q + [m])[..|q|] == q;
  }

  /** What a broadcast by `p` to its children does to each cell, after `p` itself became `d`. */
  lemma BroadcastCell(s: System, p: Pid, d: Cell, m: SysMsg, x: Pid)
    requires Wired(s) && p in s && LocalChange(s[p], d) && d.stopped == s[p].stopped && x in s
    ensures var t := SendEach(s[p := d], s[p].Children(), m);
            t[x] == if x == p then d else if Open(s, x) && s[p].Supervises(x)
                       then s[x].(inbox := s[x].inbox + [m]) else s[x]
  {
    assert CellWired(s, p);
    ChildrenListed(s[p].registry.children, x);
    SendEachResult(s[p := d], s[p].Children(), m);
  }

  lemma BroadcastTree(s: System, p: Pid, d: Cell, m: SysMsg)
    requires Wired(s) && p in s && LocalChange(s[p], d) && d.stopped == s[p].stopped && !m.Failure?
    ensures var t := SendEach(s[p := d], s[p].Children(), m);
            Wired(t) && SameTree(s, t)
  {
    var t := SendEach(s[p := d], s[p].Children(), m);
    forall x | x in s ensures SameLinks(s, t, x) {
      assert CellWired(s, x);
      BroadcastCell(s, p, d, m, x);
    }
    LinksWired(s, t);
  }

  /** The cell of `x` keeps its links, and its inbox holds no new report. */
  ghost predicate SameLinks(s: System, t: System, x: Pid)
    requires x in s && x in t
  {
    && t[x].parent == s[x].parent && (s[x].stopped ==> t[x].stopped)
    && (forall y :: t[x].Supervises(y) ==> s[x].Supervises(y))
    && UniquePids(t[x].registry.children.Entries())
    && (forall k :: 0 <= k < |t[x].inbox| ==> t[x].inbox[k].Failure? ==> t[x].inbox[k] in s[x].inbox)
  }

  lemma LinksWired(s: System, t: System)
    requires Wired(s) && t.Keys == s.Keys && forall x :: x in s ==> SameLinks(s, t, x)
    ensures Wired(t) && SameTree(s, t)
  {
    forall x | x in t ensures CellWired(t, x) {
      assert CellWired(s, x) && SameLinks(s, t, x);
      forall k | 0 <= k < |t[x].inbox| ensures FromChild(t, x, t[x].inbox[k]) {
        if t[x].inbox[k].Failure? {
          var i :| 0 <= i < |s[x].inbox| && s[x].inbox[i] == t[x].inbox[k];
          assert FromChild(s, x, s[x].inbox[i]);
        }
      }
    }
  }

  lemma BroadcastReports(s: System, p: Pid, d: Cell, m: SysMsg, x: Pid)
    requires Wired(s) && p in s && LocalChange(s[p], d) && d.stopped == s[p].stopped && !m.Failure? && x in s
    requires d.inbox != s[p].inbox ==> !s[p].inbox[0].Failure?
    ensures Reports(SendEach(s[p := d], s[p].Children(), m), x) == Reports(s, x)
  {
    assert CellWired(s, x);
    if s[x].parent.Some? {
      var q := s[x].parent.value;
      BroadcastCell(s, p, d, m, q);
      BroadcastCell(s, p, d, m, x);
      LocalReports(s, p, d, x);
      CountFailuresAppend(s[q].inbox, m, x);
    } else {
      BroadcastCell(s, p, d, m, x);
    }
  }

  lemma SuspendKeeps(s: System, p: Pid)
    requires Invariant(s) && Open(s, p) && s[p].inbox != [] && s[p].inbox[0].Suspend?
    ensures Invariant(OnSuspend(s, p))
  {
    var d := s[p].(suspends := s[p].suspends + 1, inbox := s[p].inbox[1..]);
    var t := OnSuspend(s, p);
    assert CellWired(s, p);
    BroadcastTree(s, p, d, Suspend);
    forall x | x in s ensures Credited(s, t, p, x) {
      BroadcastCell(s, p, d, Suspend, x);
      BroadcastCell(s, p, d, Suspend, p);
      BroadcastReports(s, p, d, Suspend, x);
      ForAllCalm(s[x].inbox, Suspend);
    }
    CreditsKeeps(s, t, p);
  }

  lemma ForAllCalm(q: seq<SysMsg>, m: SysMsg)
    requires Calm(m)
    ensures forall n: nat :: Need(q + [m], n) <= Need(q, n)
    ensures forall n: nat :: WaveNeed(q + [m], n) <= WaveNeed(q, n)
  {
    forall n: nat ensures Need(q + [m], n) <= Need(q, n) && WaveNeed(q + [m], n) <= WaveNeed(q, n) {
      CalmNeed(q, m, n);
    }
  }

  lemma ResumeKeeps(s: System, p: Pid)
    requires Invariant(s) && Open(s, p) && s[p].inbox != [] && s[p].inbox[0].Resume?
    ensures Invariant(OnResume(s, p))
  {
    var left := if s[p].suspends == 0 then 0 else s[p].suspends - 1;
    var d := s[p].(suspends := left, failed := NotFailed, inbox := s[p].inbox[1..]);
    var t := OnResume(s, p);
    assert CellWired(s, p);
    BroadcastTree(s, p, d, Resume);
    forall x | x in s ensures Debited(s, t, p, x) {
      BroadcastCell(s, p, d, Resume, x);
      BroadcastReports(s, p, d, Resume, x);
    }
    DebitsKeeps(s, t, p);
  }

  /** The cells after a failure report: the parent's inbox grew by the report, the children's by a Suspend. */
  lemma ReportCell(s: System, p: Pid, cause: Cause, x: Pid)
    requires Wired(s) && Open(s, p) && x in s
    requires s[p].parent.Some? && Open(s, s[p].parent.value)
    ensures var t := ReportFailure(s, p, cause);
            && x in t && t[x].parent == s[x].parent && t[x].stopped == s[x].stopped
            && t[x].registry == s[x].registry
            && t[x].suspends == s[x].suspends + (if x == p then 1 else 0)
            && t[x].inbox == s[x].inbox + (
                               if x == s[p].parent.value then [Failure(p, cause)]
                               else if x != p && Open(s, x) && s[p].Supervises(x) then [Suspend] else [])
  {
    var failed := if s[p].failed.NotFailed? then FailedBy(p) else s[p].failed;
    var d := s[p].(suspends := s[p].suspends + 1, failed := failed);
    assert CellWired(s, p) && CellWired(s, x);
    BroadcastCell(s, p, d, Suspend, x);
    BroadcastCell(s, p, d, Suspend, s[p].parent.value);
  }

  /** What `q` received decides how many reports of its child `x` it has. */
  lemma ReportsReceived(s: System, t: System, x: Pid, q: Pid, more: seq<SysMsg>)
    requires x in s && x in t && q in s && q in t && s[x].parent == t[x].parent == Some(q)
    requires |more| <= 1 && t[q].inbox == s[q].inbox + more
    ensures Reports(t, x) == Reports(s, x) + (if |more| == 1 && more[0].Failure? && more[0].child == x then 1 else 0)
  {
    if more == [] {
      assert s[q].inbox + more == s[q].inbox;
    } else {
      assert more == [more[0]];
      CountFailuresAppend(s[q].inbox, more[0], x);
    }
  }

  lemma ReportReports(s: System, p: Pid, cause: Cause, x: Pid)
    requires Wired(s) && Open(s, p) && x in s
    requires s[p].parent.Some? && Open(s, s[p].parent.value)
    ensures ReportFailure(s, p, cause).Keys == s.Keys
    ensures Reports(ReportFailure(s, p, cause), x) == Reports(s, x) + (if x == p then 1 else 0)
  {
    var t := ReportFailure(s, p, cause);
    assert CellWired(s, x);
    ReportCell(s, p, cause, x);
    if s[x].parent.Some? {
      var q := s[x].parent.value;
      ReportCell(s, p, cause, q);
      ReportsReceived(s, t, x, q, if q == s[p].parent.value then [Failure(p, cause)]
                                  else if q != p && Open(s, q) && s[p].Supervises(q) then [Suspend] else []);
    }
  }

  lemma ReportWired(s: System, p: Pid, cause: Cause)
    requires Wired(s) && Open(s, p)
    requires s[p].parent.Some? && Open(s, s[p].parent.value)
    ensures Wired(ReportFailure(s, p, cause)) && SameTree(s, ReportFailure(s, p, cause))
  {
    var failed := if s[p].failed.NotFailed? then FailedBy(p) else s[p].failed;
    var d := s[p].(suspends := s[p].suspends + 1, failed := failed);
    var u := SendEach(s[p := d], s[p].Children(), Suspend);
    assert CellWired(s, p);
    BroadcastTree(s, p, d, Suspend);
    SendWired(u, s[p].parent.value, Failure(p, cause));
  }

  lemma ReportKeeps(s: System, p: Pid, cause: Cause)
    requires Invariant(s) && Open(s, p)
    ensures Invariant(ReportFailure(s, p, cause))
  {
    var t := ReportFailure(s, p, cause);
    if s[p].parent.Some? && Open(s, s[p].parent.value) {
      ReportWired(s, p, cause);
      forall x | x in s ensures Credited(s, t, p, x) {
        ReportCredits(s, p, cause, x);
      }
      CreditsKeeps(s, t, p);
    } else {
      OrphanReportKeeps(s, p, cause);
    }
  }

  lemma ReportCredits(s: System, p: Pid, cause: Cause, x: Pid)
    requires Wired(s) && Open(s, p) && x in s
    requires s[p].parent.Some? && Open(s, s[p].parent.value)
    ensures var t := ReportFailure(s, p, cause);
            x in t && p in t && Credited(s, t, p, x)
  {
    assert CellWired(s, p) && CellWired(s, x);
    ReportCell(s, p, cause, x);
    ReportCell(s, p, cause, p);
    ReportReports(s, p, cause, x);
    ForAllCalm(s[x].inbox, Suspend);
    ForAllReport(s[x].inbox, Failure(p, cause));
    assert s[x].inbox + [] == s[x].inbox;
  }

  lemma ForAllReport(q: seq<SysMsg>, m: SysMsg)
    requires m.Failure?
    ensures forall n: nat :: Need(q + [m], n) == Need(q, n)
    ensures forall n: nat :: WaveNeed(q + [m], n) == WaveNeed(q, n)
  {
    forall n: nat ensures Need(q + [m], n) == Need(q, n) && WaveNeed(q + [m], n) == WaveNeed(q, n) {
      NeedAppend(q, m, n);
    }
  }

  lemma OrphanReportKeeps(s: System, p: Pid, cause: Cause)
    requires Invariant(s) && Open(s, p)
    requires s[p].parent.None? || !Open(s, s[p].parent.value)
    ensures Invariant(ReportFailure(s, p, cause))
  {
    var failed := if s[p].failed.NotFailed? then FailedBy(p) else s[p].failed;
    var d := s[p].(suspends := s[p].suspends + 1, failed := failed);
    var t, u := s[p := d], SendEach(s[p := d], s[p].Children(), Suspend);
    assert CellWired(s, p);
    LocalEases(s, p, d);
    SendEachCalm(t, s[p].Children(), Suspend);
    EasesTrans(s, t, u);
    SendCalm(u, p, Stop);
    EasesTrans(s, u, Send(u, p, Stop));
    EasesKeeps(s, Send(u, p, Stop));
  }

  // ---------- registries only shrink ----------

  ghost predicate Shrinks(a: Container, b: Container) {
    && (forall x :: b.Registered(x) ==> a.Registered(x))
    && (UniquePids(a.Entries()) ==> UniquePids(b.Entries()))
  }

  lemma RemoveShrinks(a: Container, x: Pid)
    ensures Shrinks(a, Remove(a, x).0)
  {
    WithoutKeeps(a.Entries(), {x});
  }

  lemma {:induction false} RemoveEachShrinks(a: Container, xs: seq<Pid>)
    ensures Shrinks(a, RemoveEach(a, xs))
    ensures !a.Terminating? ==> !RemoveEach(a, xs).Terminating?
  {
    if xs != [] {
      RemoveEachShrinks(a, xs[..|xs| - 1]);
      RemoveShrinks(RemoveEach(a, xs[..|xs| - 1]), xs[|xs| - 1]);
    }
  }

  // ---------- handlers that only ease ----------

  lemma PopEases(s: System, p: Pid)
    requires Wired(s) && p in s && s[p].inbox != [] && !s[p].inbox[0].Failure? && !s[p].inbox[0].Suspend?
    requires !s[p].inbox[0].Resume?
    ensures Eases(s, PopHead(s, p))
  {
    assert CellWired(s, p);
    LocalEases(s, p, s[p].(inbox := s[p].inbox[1..]));
  }

  lemma FinishTerminateEases(s: System, p: Pid)
    requires Wired(s) && p in s
    ensures Eases(s, FinishTerminate(s, p))
  {
    var c := s[p].(stopped := true, watchers := []);
    assert CellWired(s, p);
    LocalEases(s, p, c);
    var t := NotifyEach(s[p := c], s[p].watchers, p);
    NotifyEachCalm(s[p := c], s[p].watchers, p);
    EasesTrans(s, s[p := c], t);
    if s[p].parent.Some? && s[p].parent.value in s {
      var q := s[p].parent.value;
      var d := t[q].(registry := Unregistered(t[q].registry, p));
      assert CellWired(t, q);
      RemoveShrinks(t[q].registry.children, p);
      UnregisteredDeferred(t[q].registry, p);
      LocalEases(t, q, d);
      EasesTrans(s, t, t[q := d]);
    }
  }

  lemma UnregisteredDeferred(r: Registry, p: Pid)
    ensures var c, d := r.children, Unregistered(r, p).children;
            d.Terminating? ==> c.Terminating? && d.reason == c.reason
  {
  }

  lemma StopEases(s: System, p: Pid)
    requires Wired(s) && p in s && s[p].inbox != [] && s[p].inbox[0].Stop?
    ensures Eases(s, OnStop(s, p))
  {
    var children, pids := s[p].registry.children, s[p].Children();
    var t := PopHead(s, p);
    PopEases(s, p);
    if !children.IsTerminating() {
      if pids == [] {
        FinishTerminateEases(t, p);
        EasesTrans(s, t, FinishTerminate(t, p));
      } else {
        WaitEases(t, p);
        EasesTrans(s, t, OnStop(s, p));
      }
    }
  }

  /** The stop that waits: children marked, counter raised, Stop sent. */
  lemma WaitEases(t: System, p: Pid)
    requires Wired(t) && p in t
    ensures var children, pids := t[p].registry.children, t[p].Children();
            var marked := SetReason(MarkAll(children, pids), Termination).0;
            var c := t[p].(registry := t[p].registry.(children := marked), suspends := t[p].suspends + 1);
            Eases(t, SendEach(t[p := c], pids, Stop))
  {
    var children, pids := t[p].registry.children, t[p].Children();
    var marked := SetReason(MarkAll(children, pids), Termination).0;
    MarkAllKeeps(children, pids);
    var c := t[p].(registry := t[p].registry.(children := marked), suspends := t[p].suspends + 1);
    assert CellWired(t, p);
    LocalEases(t, p, c);
    SendEachCalm(t[p := c], pids, Stop);
    EasesTrans(t, t[p := c], SendEach(t[p := c], pids, Stop));
  }

  lemma StopChildEases(s: System, p: Pid, child: Pid)
    requires Wired(s) && p in s && s[p].inbox != [] && s[p].inbox[0].StopChild?
    ensures Eases(s, OnStopChild(s, p, child))
  {
    var t, children := PopHead(s, p), s[p].registry.children;
    PopEases(s, p);
    if children.Registered(child) && !children.IsTerminating() {
      var c := t[p].(registry := t[p].registry.(children := ShallDie(children, child)));
      assert CellWired(t, p);
      LocalEases(t, p, c);
      SendCalm(t[p := c], child, Stop);
      EasesTrans(s, t, t[p := c]);
      EasesTrans(s, t[p := c], OnStopChild(s, p, child));
    }
  }

  lemma StopAllEases(s: System, p: Pid)
    requires Wired(s) && p in s
    ensures Eases(s, StopAllChildren(s, p))
    ensures StopAllChildren(s, p)[p].inbox == s[p].inbox && StopAllChildren(s, p)[p].stopped == s[p].stopped
    ensures StopAllChildren(s, p)[p].failed == s[p].failed
  {
    var pids := s[p].Children();
    var r := Registry(MarkAll(s[p].registry.children, pids), DropUserWatches(s[p].registry.watching, pids));
    var c := s[p].(registry := r);
    MarkAllKeeps(s[p].registry.children, pids);
    assert CellWired(s, p);
    LocalEases(s, p, c);
    SendEachCalm(s[p := c], pids, Stop);
    EasesTrans(s, s[p := c], StopAllChildren(s, p));
    BroadcastCell(s, p, c, Stop, p);
  }

  // ---------- restarts ----------

  lemma RecreateKeeps(s: System, p: Pid, cause: Cause, h: Hooks)
    requires Invariant(s) && Open(s, p) && s[p].inbox != [] && s[p].inbox[0].Recreate?
    ensures Invariant(OnRecreate(s, p, cause, h))
  {
    if s[p].failed.Fatal? {
      PopEases(s, p);
      EasesKeeps(s, PopHead(s, p));
    } else if h.stopsChildren {
      StopAllEases(s, p);
      EasesKeeps(s, StopAllChildren(s, p));
      RestartKeeps(StopAllChildren(s, p), p, cause, h);
    } else {
      RestartKeeps(s, p, cause, h);
    }
  }

  function AfterStops(s: System, p: Pid, cause: Cause, h: Hooks): System
    requires p in s
  {
    OnRecreate(s, p, cause, h.(stopsChildren := false))
  }

  lemma RestartKeeps(s: System, p: Pid, cause: Cause, h: Hooks)
    requires Invariant(s) && Open(s, p) && s[p].inbox != [] && s[p].inbox[0].Recreate? && !s[p].failed.Fatal?
    ensures Invariant(AfterStops(s, p, cause, h))
  {
    assert CellWired(s, p);
    if !h.preRestart {
      PopEases(s, p);
      EasesKeeps(s, PopHead(s, p));
    } else {
      var (children, deferred) := SetReason(s[p].registry.children, Recreation(cause));
      var c := s[p].(deferredCause := Some(cause), registry := s[p].registry.(children := children), inbox := s[p].inbox[1..]);
      assert PopHead(s, p)[p := c] == s[p := c];
      if deferred {
        LocalEases(s, p, c);
        EasesKeeps(s, s[p := c]);
        assert AfterStops(s, p, cause, h) == s[p := c];
      } else {
        PaidFinishKeeps(s, p, c, h.error, h.postRestart);
        assert AfterStops(s, p, cause, h) == FinishRecreate(s[p := c], p, h.error, h.postRestart);
      }
    }
  }

  /** Finishing a restart takes one from the counter; `c` has room for it. */
  lemma PaidFinishKeeps(s: System, p: Pid, c: Cell, error: Cause, ok: bool)
    requires Invariant(s) && Open(s, p) && LocalChange(s[p], c) && !c.stopped
    requires c.suspends == s[p].suspends && c.inbox != s[p].inbox && c.Deferred() == 0
    requires s[p].inbox[0].Recreate? || (s[p].inbox[0].DeathWatchNotification? && s[p].Deferred() == 1)
    ensures Invariant(FinishRecreate(s[p := c], p, error, ok))
  {
    var left := if c.suspends == 0 then 0 else c.suspends - 1;
    var d := c.(deferredCause := None, suspends := left, failed := if ok then NotFailed else Fatal);
    LocalEases(s, p, d);
    EasesKeeps(s, s[p := d]);
    assert s[p := c][p := d] == s[p := d];
    if !ok {
      ReportKeeps(s[p := d], p, error);
    }
  }

  lemma NotificationKeeps(s: System, p: Pid, dead: Pid, h: Hooks)
    requires Invariant(s) && Open(s, p) && s[p].inbox != [] && s[p].inbox[0].DeathWatchNotification?
    ensures Invariant(OnNotification(s, p, dead, h))
  {
    var (r, change) := Notified(s[p].registry, dead);
    var c := s[p].(registry := r, inbox := s[p].inbox[1..]);
    assert CellWired(s, p);
    RemoveShrinks(s[p].registry.children, dead);
    assert PopHead(s[p := s[p].(registry := r)], p) == s[p := c];
    match change {
      case Some(Recreation(_)) => PaidFinishKeeps(s, p, c, h.error, h.postRestart);
      case Some(Termination) =>
        LocalEases(s, p, c);
        FinishTerminateEases(s[p := c], p);
        EasesTrans(s, s[p := c], FinishTerminate(s[p := c], p));
        EasesKeeps(s, FinishTerminate(s[p := c], p));
      case _ =>
        LocalEases(s, p, c);
        EasesKeeps(s, s[p := c]);
    }
  }

  // ---------- failure reports ----------

  /** Answering a report frees the reporter's counter and its waves by one. */
  lemma PopReport(s: System, p: Pid)
    requires Wired(s) && p in s && s[p].inbox != [] && s[p].inbox[0].Failure?
    ensures var child := s[p].inbox[0].child;
            EasesBy(s, PopHead(s, p), {child}, {child})
  {
    var child, d := s[p].inbox[0].child, s[p].(inbox := s[p].inbox[1..]);
    var t := PopHead(s, p);
    assert CellWired(s, p);
    LocalWired(s, p, d);
    forall x | x in s ensures Kept(s, t, x, {child}, {child}) {
      LocalReports(s, p, d, x);
    }
  }

  /** A bonus pays for one Recreate, and together with a wave bonus for one Resume. */
  lemma Spend(s: System, t: System, b: set<Pid>, w: set<Pid>, y: Pid, m: SysMsg)
    requires EasesBy(s, t, b, w) && (m.Recreate? || (m.Resume? && (Open(t, y) ==> y in w)))
    requires Open(t, y) ==> y in b
    ensures EasesBy(s, Send(t, y, m), b - {y}, w - {y})
  {
    var u := Send(t, y, m);
    SendWired(t, y, m);
    forall x | x in s ensures Kept(s, u, x, b - {y}, w - {y}) {
      assert Kept(s, t, x, b, w);
      SendReports(t, y, m, x);
      ForAllSpend(t[x].inbox, m);
    }
  }

  lemma ForAllSpend(q: seq<SysMsg>, m: SysMsg)
    requires m.Recreate? || m.Resume?
    ensures forall n: nat :: Need(q + [m], n) <= Need(q, n) + 1
    ensures forall n: nat :: WaveNeed(q + [m], n) <= WaveNeed(q, n) + (if m.Resume? then 1 else 0)
  {
    forall n: nat
      ensures Need(q + [m], n) <= Need(q, n) + 1
      ensures WaveNeed(q + [m], n) <= WaveNeed(q, n) + (if m.Resume? then 1 else 0)
    {
      NeedAppend(q, m, n);
      NeedMonotone(q, n, n + 1);
    }
  }

  lemma {:induction false} SpendEach(s: System, t: System, b: set<Pid>, w: set<Pid>, ys: seq<Pid>, m: SysMsg)
    requires EasesBy(s, t, b, w) && m.Recreate? && Distinct(ys)
    requires forall y :: y in ys && Open(t, y) ==> y in b
    ensures Eases(s, SendEach(t, ys, m))
    ensures EasesBy(s, SendEach(t, ys, m), b - PidSet(ys), w - PidSet(ys))
  {
    if ys == [] {
      assert b - PidSet(ys) == b && w - PidSet(ys) == w;
    } else {
      var front, y := ys[..|ys| - 1], ys[|ys| - 1];
      SpendEach(s, t, b, w, front, m);
      SendEachResult(t, front, m);
      var c, v := b - PidSet(front), w - PidSet(front);
      assert y !in PidSet(front);
      Spend(s, SendEach(t, front, m), c, v, y, m);
      assert b - PidSet(ys) == c - {y} && w - PidSet(ys) == v - {y};
    }
    EasesForget(s, SendEach(t, ys, m), b - PidSet(ys), w - PidSet(ys));
  }

  lemma SiblingEases(s: System, x: Pid)
    requires Wired(s) && Open(s, x)
    ensures EasesBy(s, SuspendSibling(s, x), {x}, {})
  {
    var d := s[x].(suspends := s[x].suspends + 1);
    var t, u := s[x := d], SuspendSibling(s, x);
    assert CellWired(s, x);
    LocalWired(s, x, d);
    forall y | y in s ensures Kept(s, t, y, {x}, {}) {
      LocalReports(s, x, d, y);
    }
    SendEachCalm(t, s[x].Children(), Suspend);
    EasesCompose(s, t, u, {x}, {}, {}, {});
    var none: set<Pid> := {};
    assert {x} + none == {x} && none + none == none;
  }

  ghost function OpenSiblings(s: System, ys: seq<Pid>, child: Pid): set<Pid> {
    set y | y in ys && y != child && Open(s, y)
  }

  lemma {:induction false} SiblingsEase(s: System, ys: seq<Pid>, child: Pid)
    requires Wired(s) && Distinct(ys)
    ensures EasesBy(s, SuspendSiblings(s, ys, child), OpenSiblings(s, ys, child), {})
    ensures forall y :: y in s ==> (Open(SuspendSiblings(s, ys, child), y) <==> Open(s, y))
  {
    if ys == [] {
      assert OpenSiblings(s, ys, child) == {};
      EasesSelf(s);
    } else {
      var front, y := ys[..|ys| - 1], ys[|ys| - 1];
      var t, b := SuspendSiblings(s, front, child), OpenSiblings(s, front, child);
      SiblingsEase(s, front, child);
      assert ys == front + [y];
      if y != child && Open(t, y) {
        SiblingEases(t, y);
        EasesCompose(s, t, SuspendSibling(t, y), b, {}, {y}, {});
        var none: set<Pid> := {};
        assert OpenSiblings(s, ys, child) == b + {y} && none + none == none;
        SiblingOpen(t, y);
      } else {
        assert OpenSiblings(s, ys, child) == b;
      }
    }
  }

  lemma SiblingOpen(s: System, x: Pid)
    requires Wired(s) && x in s
    ensures forall y :: y in s ==> (Open(SuspendSibling(s, x), y) <==> Open(s, y))
  {
    var d := s[x].(suspends := s[x].suspends + 1);
    assert CellWired(s, x);
    forall y | y in s ensures Open(SuspendSibling(s, x), y) <==> Open(s, y) {
      BroadcastCell(s, x, d, Suspend, y);
    }
  }

  lemma DirectKeeps(s: System, p: Pid, child: Pid, cause: Cause, directive: Directive, affected: seq<Pid>)
    requires Invariant(s) && Open(s, p) && s[p].inbox != []
    requires s[p].inbox[0].Failure? && s[p].inbox[0].child == child
    requires Distinct(affected) && (directive.ResumeChild? ==> affected == [child])
    ensures Invariant(Direct(PopHead(s, p), p, child, cause, directive, affected))
  {
    var t := PopHead(s, p);
    PopReport(s, p);
    EasesForget(s, t, {child}, {child});
    match directive {
      case RestartChild => RestartAllKeeps(s, p, child, cause, affected);
      case StopThem =>
        SendEachCalm(t, affected, Stop);
        EasesTrans(s, t, SendEach(t, affected, Stop));
        EasesKeeps(s, SendEach(t, affected, Stop));
      case EscalateUp =>
        SendEachCalm(t, affected, Stop);
        EasesTrans(s, t, SendEach(t, affected, Stop));
        EasesKeeps(s, SendEach(t, affected, Stop));
        SendEachResult(t, affected, Stop);
        ReportKeeps(SendEach(t, affected, Stop), p, cause);
      case ResumeChild =>
        assert affected[..0] == [];
        assert SendEach(t, affected, Resume) == Send(SendEach(t, affected[..0], Resume), child, Resume);
        Spend(s, t, {child}, {child}, child, Resume);
        EasesForget(s, SendEach(t, affected, Resume), {child} - {child}, {child} - {child});
        EasesKeeps(s, SendEach(t, affected, Resume));
    }
  }

  lemma RestartAllKeeps(s: System, p: Pid, child: Pid, cause: Cause, affected: seq<Pid>)
    requires Invariant(s) && Open(s, p) && s[p].inbox != []
    requires s[p].inbox[0].Failure? && s[p].inbox[0].child == child && Distinct(affected)
    ensures Invariant(Direct(PopHead(s, p), p, child, cause, RestartChild, affected))
  {
    var t := PopHead(s, p);
    PopReport(s, p);
    var u, b := SuspendSiblings(t, affected, child), OpenSiblings(t, affected, child);
    SiblingsEase(t, affected, child);
    EasesCompose(s, t, u, {child}, {child}, b, {});
    SpendEach(s, u, {child} + b, {child} + {}, affected, Recreate(cause));
    var v := SendEach(u, affected, Recreate(cause));
    EasesKeeps(s, v);
    SendEachResult(u, affected, Recreate(cause));
    assert Open(u, p) && Open(v, p);
    ReportKeeps(v, p, cause);
  }

  // ---------- children are only added to a parent that is not suspended ----------

  ghost predicate Adopts(s: System, p: Pid, d: Cell, child: Pid) {
    && Wired(s) && Open(s, p) && child in s && s[child].parent == Some(p)
    && d.parent == s[p].parent && d.stopped == s[p].stopped && d.inbox == s[p].inbox && d.suspends == s[p].suspends
    && (forall x :: d.Supervises(x) ==> s[p].Supervises(x) || x == child)
    && UniquePids(d.registry.children.Entries()) && d.Deferred() <= s[p].Deferred()
  }

  lemma AdoptWired(s: System, p: Pid, d: Cell, child: Pid)
    requires Adopts(s, p, d, child)
    ensures Wired(s[p := d])
  {
    var t := s[p := d];
    forall q | q in t ensures CellWired(t, q) {
      assert CellWired(s, q);
    }
  }

  lemma {:induction false} AdoptWave(s: System, p: Pid, d: Cell, child: Pid, x: Pid)
    requires Adopts(s, p, d, child) && x in s && Wired(s[p := d]) && Wave(s, p) == 0
    ensures Upstream(s[p := d], x) <= Upstream(s, x) && Wave(s[p := d], x) <= Wave(s, x)
    decreases x
  {
    var t := s[p := d];
    assert CellWired(s, x);
    if s[x].parent.Some? {
      AdoptWave(s, p, d, child, s[x].parent.value);
    }
    NeedMonotone(s[x].inbox, Upstream(t, x), Upstream(s, x));
  }

  lemma AdoptKeeps(s: System, p: Pid, d: Cell, child: Pid)
    requires Invariant(s) && Adopts(s, p, d, child) && s[p].suspends == 0
    ensures Invariant(s[p := d])
  {
    var t := s[p := d];
    AdoptWired(s, p, d, child);
    UnsuspendedHasNoWave(s, p);
    forall x | Open(t, x) ensures Covered(t, x) {
      AdoptWave(s, p, d, child, x);
      assert Covered(s, x);
      NeedMonotone(s[x].inbox, Upstream(t, x), Upstream(s, x));
    }
  }

  lemma {:induction false} NoReports(q: seq<SysMsg>, x: Pid)
    requires forall k :: 0 <= k < |q| ==> !(q[k].Failure? && q[k].child == x)
    ensures CountFailures(q, x) == 0
  {
    if q != [] {
      NoReports(q[..|q| - 1], x);
    }
  }

  lemma NewCellWired(s: System, p: Pid, x: Pid)
    requires Wired(s) && p in s && x !in s && p < x
    ensures Wired(s[x := NewCell(p)])
  {
    var t := s[x := NewCell(p)];
    forall q | q in t ensures CellWired(t, q) {
      if q != x {
        assert CellWired(s, q);
      }
    }
  }

  lemma {:induction false} NewCellWave(s: System, p: Pid, x: Pid, y: Pid)
    requires Wired(s) && p in s && x !in s && Wired(s[x := NewCell(p)]) && y in s
    ensures var t := s[x := NewCell(p)];
            Upstream(t, y) == Upstream(s, y) && Wave(t, y) == Wave(s, y) && Reports(t, y) == Reports(s, y)
    decreases y
  {
    assert CellWired(s, y);
    if s[y].parent.Some? {
      NewCellWave(s, p, x, s[y].parent.value);
    }
  }

  lemma NewCellKeeps(s: System, p: Pid, x: Pid)
    requires Invariant(s) && p in s && x !in s && p < x
    ensures Invariant(s[x := NewCell(p)])
  {
    var t := s[x := NewCell(p)];
    NewCellWired(s, p, x);
    forall y | Open(t, y) ensures Covered(t, y) {
      if y == x {
        assert CellWired(s, p);
        forall k | 0 <= k < |s[p].inbox| ensures !(s[p].inbox[k].Failure? && s[p].inbox[k].child == x) {
          assert FromChild(s, p, s[p].inbox[k]);
        }
        NoReports(s[p].inbox, x);
        assert !s[p].Supervises(x);
        assert NewCell(p).inbox[1..] == [];
      } else {
        assert Covered(s, y);
        NewCellWave(s, p, x, y);
      }
    }
  }

  lemma SpawnKeeps(s: System, p: Pid, x: Pid)
    requires Invariant(s) && Open(s, p) && !s[p].IsSuspended() && x !in s && p < x
    ensures Invariant(Spawn(s, p, x))
  {
    var t := s[x := NewCell(p)];
    NewCellKeeps(s, p, x);
    assert CellWired(s, p);
    InsertKeeps(s[p].registry.children.Entries(), x);
    var r := Registry(AddChild(s[p].registry.children, x), WithWatch(s[p].registry.watching, Watch(x, Supervision)));
    var d := s[p].(registry := r);
    assert t[p] == s[p];
    AdoptKeeps(t, p, d, x);
  }

  /** A report leaves the message its sender is handling at the head of its inbox. */
  lemma ReportHead(s: System, p: Pid, cause: Cause)
    requires Open(s, p) && s[p].inbox != []
    ensures var t := ReportFailure(s, p, cause);
            Open(t, p) && t[p].inbox != [] && t[p].inbox[0] == s[p].inbox[0]
  {
    var failed := if s[p].failed.NotFailed? then FailedBy(p) else s[p].failed;
    var c := s[p].(suspends := s[p].suspends + 1, failed := failed);
    SendEachHead(s[p := c], s[p].Children(), Suspend, p);
  }

  lemma {:induction false} SendEachHead(s: System, targets: seq<Pid>, m: SysMsg, p: Pid)
    requires Open(s, p)
    ensures var t := SendEach(s, targets, m); Open(t, p) && s[p].inbox <= t[p].inbox
    ensures forall x :: x in s ==> (Open(SendEach(s, targets, m), x) <==> Open(s, x))
  {
    if targets != [] {
      SendEachHead(s, targets[..|targets| - 1], m, p);
    }
  }

  lemma TouchAdds(a: Container, child: Pid, stats: Stats)
    requires UniquePids(a.Entries())
    ensures UniquePids(TouchStats(a, child, stats).Entries())
    ensures forall x :: TouchStats(a, child, stats).Registered(x) ==> a.Registered(x) || x == child
    ensures TouchStats(a, child, stats).Terminating? <==> a.Terminating?
    ensures a.Terminating? ==> TouchStats(a, child, stats).reason == a.reason
  {
    if !a.Terminated? {
      InsertKeeps(a.Entries(), child);
      StatsKeep(AddChild(a, child).Entries(), child, stats);
    }
  }

  lemma AfterFailureAdds(a: Container, child: Pid, affected: seq<Pid>, directive: Directive, stats: Stats)
    requires UniquePids(a.Entries())
    ensures var b := ChildrenAfterFailure(a, child, affected, directive, stats);
            && UniquePids(b.Entries())
            && (forall x :: b.Registered(x) ==> a.Registered(x) || x == child)
            && (b.Terminating? ==> a.Terminating? && b.reason == a.reason)
  {
    TouchAdds(a, child, stats);
    RemoveEachShrinks(TouchStats(a, child, stats), affected);
  }

  lemma RegistryKeeps(s: System, p: Pid, child: Pid, affected: seq<Pid>, directive: Directive, stats: Stats)
    requires Invariant(s) && Open(s, p) && child in s && s[child].parent == Some(p)
    requires s[p].Supervises(child) || !s[p].IsSuspended()
    ensures var next := ChildrenAfterFailure(s[p].registry.children, child, affected, directive, stats);
            Invariant(s[p := s[p].(registry := s[p].registry.(children := next))])
  {
    var next := ChildrenAfterFailure(s[p].registry.children, child, affected, directive, stats);
    var d := s[p].(registry := s[p].registry.(children := next));
    assert CellWired(s, p);
    AfterFailureAdds(s[p].registry.children, child, affected, directive, stats);
    if s[p].Supervises(child) {
      LocalEases(s, p, d);
      EasesKeeps(s, s[p := d]);
    } else {
      AdoptKeeps(s, p, d, child);
    }
  }

  lemma AffectedOnce(a: Container, child: Pid, h: Hooks)
    requires UniquePids(a.Entries())
    ensures Distinct(Affected(a, child, h))
  {
    TouchAdds(a, child, h.stats);
    ChildrenListed(TouchStats(a, child, h.stats), child);
  }

  lemma FailureKeeps(s: System, p: Pid, child: Pid, cause: Cause, h: Hooks)
    requires Invariant(s) && Open(s, p) && s[p].inbox != [] && s[p].inbox[0] == Failure(child, cause)
    requires s[p].Supervises(child) || !s[p].IsSuspended()
    requires h.directive.ResumeChild? ==> Affected(s[p].registry.children, child, h) == [child]
    ensures Invariant(OnFailure(s, p, child, cause, h))
  {
    var children := s[p].registry.children;
    var directive := if children.Terminated? then StopThem else h.directive;
    var affected := Affected(children, child, h);
    var next := ChildrenAfterFailure(children, child, affected, directive, h.stats);
    var t := s[p := s[p].(registry := s[p].registry.(children := next))];
    assert CellWired(s, p);
    assert FromChild(s, p, s[p].inbox[0]);
    RegistryKeeps(s, p, child, affected, directive, h.stats);
    AffectedOnce(children, child, h);
    if h.onChildFailed {
      DirectKeeps(t, p, child, cause, directive, affected);
    } else {
      ReportKeeps(t, p, h.error);
      ReportHead(t, p, h.error);
      DirectKeeps(ReportFailure(t, p, h.error), p, child, cause, directive, affected);
    }
  }

  // ---------- runs ----------

  /**
   The runs the coverage theorem speaks of: nobody outside sends Resume, Recreate or Failure,
   a Resume answer reaches the failed child alone, and children are added to a parent,
   by a spawn or by a late report, only while its mailbox is not suspended.
   */
  predicate InScope(s: System, m: Move)
    requires Enabled(s, m)
  {
    match m
    case Report(_, _) => true
    case SpawnChild(p, _) => !s[p].IsSuspended()
    case External(_, msg) => Calm(msg)
    case Handle(p, h) =>
      s[p].inbox[0].Failure? ==>
        && (s[p].Supervises(s[p].inbox[0].child) || !s[p].IsSuspended())
        && (h.directive.ResumeChild? ==> Affected(s[p].registry.children, s[p].inbox[0].child, h) == [s[p].inbox[0].child])
  }

  ghost predicate RunInScope(states: seq<System>, moves: seq<Move>)
    requires IsHistory(states, moves)
  {
    forall i {:trigger InScopeAt(states, moves, i)} :: 0 <= i < |moves| ==> InScopeAt(states, moves, i)
  }

  ghost predicate InScopeAt(states: seq<System>, moves: seq<Move>, i: nat) {
    Happens(states, moves, i) && InScope(states[i], moves[i])
  }

  lemma HandleKeeps(s: System, p: Pid, h: Hooks)
    requires Invariant(s) && Enabled(s, Handle(p, h)) && InScope(s, Handle(p, h))
    ensures Invariant(OnMessage(s, p, s[p].inbox[0], h))
  {
    match s[p].inbox[0] {
      case Suspend => SuspendKeeps(s, p);
      case Resume => ResumeKeeps(s, p);
      case Recreate(cause) => RecreateKeeps(s, p, cause, h);
      case Failure(child, cause) => FailureKeeps(s, p, child, cause, h);
      case Stop =>
        StopEases(s, p);
        EasesKeeps(s, OnStop(s, p));
      case StopChild(child) =>
        StopChildEases(s, p, child);
        EasesKeeps(s, OnStopChild(s, p, child));
      case DeathWatchNotification(dead) => NotificationKeeps(s, p, dead, h);
      case _ => PlainKeeps(s, p, h);
    }
  }

  lemma PlainKeeps(s: System, p: Pid, h: Hooks)
    requires Invariant(s) && Open(s, p) && s[p].inbox != []
    requires var m := s[p].inbox[0]; m.Kill? || m.Create? || m.WatchFrom? || m.UnwatchFrom?
    ensures Invariant(OnMessage(s, p, s[p].inbox[0], h))
  {
    var t := PopHead(s, p);
    PopEases(s, p);
    EasesKeeps(s, t);
    ReportKeeps(t, p, KILLED);
    ReportKeeps(t, p, h.error);
    assert CellWired(t, p);
    var m := s[p].inbox[0];
    if m.WatchFrom? {
      LocalEases(t, p, t[p].(watchers := WithWatch(s[p].watchers, Watch(m.pid, User))));
      EasesKeeps(t, OnMessage(s, p, m, h));
    } else if m.UnwatchFrom? {
      LocalEases(t, p, t[p].(watchers := Retained(s[p].watchers, m.pid, Some(User))));
      EasesKeeps(t, OnMessage(s, p, m, h));
    }
  }

  lemma MoveKeeps(s: System, m: Move)
    requires Invariant(s) && Enabled(s, m) && InScope(s, m)
    ensures Invariant(Moved(s, m))
  {
    match m {
      case Report(p, cause) => ReportKeeps(s, p, cause);
      case SpawnChild(p, x) => SpawnKeeps(s, p, x);
      case External(p, msg) =>
        SendCalm(s, p, msg);
        EasesKeeps(s, Send(s, p, msg));
      case Handle(p, h) => HandleKeeps(s, p, h);
    }
  }

  lemma RootInvariant()
    ensures Invariant(ROOT)
  {
    assert CellWired(ROOT, 0);
  }

  /** In every state of every run in scope, each counter covers what will take from it. */
  lemma {:induction false} RunCovered(states: seq<System>, moves: seq<Move>, i: nat)
    requires IsHistory(states, moves) && RunInScope(states, moves) && i < |states|
    ensures Invariant(states[i])
  {
    if i == 0 {
      RootInvariant();
    } else {
      RunCovered(states, moves, i - 1);
      assert InScopeAt(states, moves, i - 1);
      MoveKeeps(states[i - 1], moves[i - 1]);
    }
  }

  /** So the assertion of `fault_recreate` never fires: every restart begins on a suspended mailbox. */
  lemma RestartsFindSuspended(states: seq<System>, moves: seq<Move>, i: nat)
    requires IsHistory(states, moves) && RunInScope(states, moves) && i < |moves|
    requires Happens(states, moves, i) && moves[i].Handle? && states[i][moves[i].pid].inbox[0].Recreate?
    ensures states[i][moves[i].pid].IsSuspended()
  {
    RunCovered(states, moves, i);
    assert Enabled(states[i], moves[i]);
    RecreateFindsSuspended(states[i], moves[i].pid);
  }
}
