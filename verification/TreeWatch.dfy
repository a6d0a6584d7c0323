/**
 Supervision watches over whole runs of the tree: an actor's death always reaches the
 parent that waits for it, and no deferred restart or stop is stranded.
 */
module TreeWatch {
  import opened Options
  import opened Lists
  import opened ChildRegistry
  import opened DeathWatch
  import opened Supervision
  import opened SuspendCoverage

  // ---------- the invariant ----------

  ghost predicate IsChild(s: System, p: Pid, d: Pid) {
    d in s && s[d].parent == Some(p)
  }

  ghost predicate Watched(s: System, p: Pid, d: Pid) {
    p in s && Watch(d, Supervision) in s[p].registry.watching
  }

  /** `p` can still learn of the death of `d` from `later`. */
  ghost predicate Lifeline(s: System, p: Pid, d: Pid, later: seq<SysMsg>) {
    IsChild(s, p, d) && Watched(s, p, d) && (Open(s, d) || DeathWatchNotification(d) in later)
  }

  /** A message and those behind it: reports come before the death they precede. */
  ghost predicate MessageTied(s: System, p: Pid, m: SysMsg, later: seq<SysMsg>) {
    match m
    case Failure(d, _) => Lifeline(s, p, d, later)
    case DeathWatchNotification(d) => d in s && s[d].stopped && forall n <- later :: n.Failure? ==> n.child != d
    case _ => true
  }

  ghost predicate InboxTied(s: System, p: Pid, q: seq<SysMsg>) {
    forall k {:trigger q[k]} :: 0 <= k < |q| ==> MessageTied(s, p, q[k], q[k + 1..])
  }

  /** An open child of an open parent is watched, and knows whom to notify. */
  ghost predicate ParentTied(s: System, p: Pid)
    requires p in s
  {
    s[p].parent.Some? && Open(s, s[p].parent.value) ==>
      Watched(s, s[p].parent.value, p) && Watch(s[p].parent.value, Supervision) in s[p].watchers
  }

  ghost predicate ChildrenTied(s: System, p: Pid)
    requires p in s
  {
    s[p].registry.children.Valid() && forall d :: s[p].Supervises(d) ==> Lifeline(s, p, d, s[p].inbox)
  }

  ghost predicate CellTied(s: System, p: Pid)
    requires p in s
  {
    && (s[p].parent.Some? ==> s[p].parent.value < p && s[p].parent.value in s)
    && (Open(s, p) ==> ChildrenTied(s, p) && InboxTied(s, p, s[p].inbox) && ParentTied(s, p))
  }

  ghost predicate Tied(s: System) {
    forall p {:trigger CellTied(s, p)} :: p in s ==> CellTied(s, p)
  }

  ghost function Dying(c: Cell): seq<Pid> {
    if c.registry.children.Terminating? then c.registry.children.toDie else []
  }

  predicate Stopping(c: Cell) { c.registry.children.IsTerminating() }

  /** Whoever is marked to die and still open has its Stop to come, or is stopping. */
  ghost predicate Facing(s: System, d: Pid) {
    Open(s, d) ==> Stop in s[d].inbox || Stopping(s[d])
  }

  ghost predicate CellDoomed(s: System, p: Pid)
    requires p in s
  {
    !s[p].registry.children.Terminated? && forall d <- Dying(s[p]) :: Facing(s, d)
  }

  /** The same for everybody but `p`, and about everybody but `p` unless `about` is set. */
  ghost predicate DoomedBut(s: System, p: Pid, about: bool) {
    forall x {:trigger CellDoomedBut(s, x, p, about)} :: Open(s, x) && x != p ==> CellDoomedBut(s, x, p, about)
  }

  ghost predicate CellDoomedBut(s: System, x: Pid, p: Pid, about: bool)
    requires x in s
  {
    !s[x].registry.children.Terminated? && forall d <- Dying(s[x]) :: (d == p && !about) || Facing(s, d)
  }

  ghost predicate Doomed(s: System) {
    forall p {:trigger CellDoomed(s, p)} :: Open(s, p) ==> CellDoomed(s, p)
  }

  // ---------- inboxes ----------

  lemma InboxPop(s: System, p: Pid, q: seq<SysMsg>)
    requires InboxTied(s, p, q) && q != []
    ensures InboxTied(s, p, q[1..]) && MessageTied(s, p, q[0], q[1..])
  {
    forall k | 0 <= k < |q[1..]| ensures MessageTied(s, p, q[1..][k], q[1..][k + 1..]) {
      assert q[1..][k] == q[k + 1] && q[1..][k + 1..] == q[k + 2..];
    }
    assert q[0] == q[0];
  }

  /** Everybody else still finds what they need when `more` is appended and nobody new fails. */
  lemma MessageKept(s: System, t: System, p: Pid, m: SysMsg, later: seq<SysMsg>, more: seq<SysMsg>)
    requires MessageTied(s, p, m, later)
    requires forall n <- more :: !n.Failure?
    requires forall x :: x in s ==> x in t && t[x].parent == s[x].parent && (s[x].stopped ==> t[x].stopped)
    requires m.Failure? ==> Watched(t, p, m.child) && (Open(t, m.child) || !Open(s, m.child) || DeathWatchNotification(m.child) in more)
    ensures MessageTied(t, p, m, later + more)
  {
  }

  predicate Neutral(m: SysMsg) { !m.Failure? && !m.DeathWatchNotification? }

  // ---------- changes nobody's lifeline depends on ----------

  ghost predicate Harmless(s: System, t: System) {
    && t.Keys == s.Keys
    && (forall x {:trigger HarmlessAt(s, t, x)} :: x in s ==> HarmlessAt(s, t, x))
  }

  ghost predicate HarmlessAt(s: System, t: System, x: Pid)
    requires x in s && x in t
  {
    && t[x].parent == s[x].parent && t[x].stopped == s[x].stopped
    && HarmlessRegistry(s[x].registry, t[x].registry)
    && (forall q :: Watch(q, Supervision) in s[x].watchers ==> Watch(q, Supervision) in t[x].watchers)
    && s[x].inbox <= t[x].inbox && (forall m <- t[x].inbox[|s[x].inbox|..] :: Neutral(m))
  }

  ghost predicate HarmlessRegistry(r: Registry, u: Registry) {
    && (forall d :: Watch(d, Supervision) in r.watching ==> Watch(d, Supervision) in u.watching)
    && (r.children.Valid() ==> u.children.Valid())
    && (forall d :: u.children.Registered(d) ==> r.children.Registered(d))
  }

  lemma HarmlessKeeps(s: System, t: System)
    requires Tied(s) && Harmless(s, t)
    ensures Tied(t)
  {
    forall p | p in t ensures CellTied(t, p) {
      HarmlessCell(s, t, p);
    }
  }

  lemma HarmlessCell(s: System, t: System, p: Pid)
    requires Tied(s) && Harmless(s, t) && p in s
    ensures CellTied(t, p)
  {
    assert CellTied(s, p) && HarmlessAt(s, t, p);
    if s[p].parent.Some? {
      assert HarmlessAt(s, t, s[p].parent.value);
    }
    forall x | x in s ensures t[x].parent == s[x].parent && t[x].stopped == s[x].stopped {
      assert HarmlessAt(s, t, x);
    }
    if Open(t, p) {
      HarmlessInbox(s, t, p);
      forall d | t[p].Supervises(d) ensures Lifeline(t, p, d, t[p].inbox) {
        assert t[p].registry.children.Registered(d);
        assert s[p].Supervises(d);
        PrefixIn(s[p].inbox, t[p].inbox, DeathWatchNotification(d));
      }
    }
  }

  lemma PrefixIn(q: seq<SysMsg>, r: seq<SysMsg>, m: SysMsg)
    requires q <= r
    ensures m in q ==> m in r
  {
    assert r == q + r[|q|..];
  }

  lemma HarmlessInbox(s: System, t: System, p: Pid)
    requires p in s && p in t && InboxTied(s, p, s[p].inbox) && HarmlessAt(s, t, p)
    requires forall x :: x in s ==> x in t && t[x].parent == s[x].parent && t[x].stopped == s[x].stopped
    ensures InboxTied(t, p, t[p].inbox)
  {
    var q, r := s[p].inbox, t[p].inbox;
    var more := r[|q|..];
    assert r == q + more;
    forall k {:trigger r[k]} | 0 <= k < |r| ensures MessageTied(t, p, r[k], r[k + 1..]) {
      if k < |q| {
        assert r[k] == q[k] && r[k + 1..] == q[k + 1..] + more;
        forall n | n in more ensures !n.Failure? {
          assert Neutral(n);
        }
        MessageKept(s, t, p, q[k], q[k + 1..], more);
        assert MessageTied(t, p, q[k], q[k + 1..] + more);
      } else {
        assert r[k] == more[k - |q|] && more[k - |q|] in more;
      }
    }
  }

  lemma HarmlessSelf(s: System)
    ensures Harmless(s, s)
  {
    forall x | x in s ensures HarmlessAt(s, s, x) {
    }
  }

  lemma HarmlessTrans(s: System, t: System, u: System)
    requires Harmless(s, t) && Harmless(t, u)
    ensures Harmless(s, u)
  {
    forall x | x in s ensures HarmlessAt(s, u, x) {
      assert HarmlessAt(s, t, x) && HarmlessAt(t, u, x);
      var a, b, c := s[x].inbox, t[x].inbox, u[x].inbox;
      assert c[|a|..] == b[|a|..] + c[|b|..];
    }
  }

  lemma SendHarmless(s: System, to: Pid, m: SysMsg)
    requires Neutral(m)
    ensures Harmless(s, Send(s, to, m))
  {
    var t := Send(s, to, m);
    forall x | x in s ensures HarmlessAt(s, t, x) {
      if x == to && Open(s, to) {
        assert t[x].inbox[|s[x].inbox|..] == [m];
      }
    }
  }

  lemma {:induction false} SendEachHarmless(s: System, targets: seq<Pid>, m: SysMsg)
    requires Neutral(m)
    ensures Harmless(s, SendEach(s, targets, m))
  {
    if targets == [] {
      HarmlessSelf(s);
    } else {
      var t := SendEach(s, targets[..|targets| - 1], m);
      SendEachHarmless(s, targets[..|targets| - 1], m);
      SendHarmless(t, targets[|targets| - 1], m);
      HarmlessTrans(s, t, SendEach(s, targets, m));
    }
  }

  lemma LocalHarmless(s: System, p: Pid, c: Cell)
    requires p in s && c.parent == s[p].parent && c.stopped == s[p].stopped && c.inbox == s[p].inbox
    requires HarmlessRegistry(s[p].registry, c.registry)
    requires forall q :: Watch(q, Supervision) in s[p].watchers ==> Watch(q, Supervision) in c.watchers
    ensures Harmless(s, s[p := c])
  {
    forall x | x in s ensures HarmlessAt(s, s[p := c], x) {
    }
  }

  lemma {:induction false} SiblingsHarmless(s: System, targets: seq<Pid>, child: Pid)
    ensures Harmless(s, SuspendSiblings(s, targets, child))
  {
    if targets == [] {
      HarmlessSelf(s);
    } else {
      var t, x := SuspendSiblings(s, targets[..|targets| - 1], child), targets[|targets| - 1];
      SiblingsHarmless(s, targets[..|targets| - 1], child);
      if x != child && Open(t, x) {
        var c := t[x].(suspends := t[x].suspends + 1);
        LocalHarmless(t, x, c);
        SendEachHarmless(t[x := c], t[x].Children(), Suspend);
        HarmlessTrans(t, t[x := c], SuspendSibling(t, x));
        HarmlessTrans(s, t, SuspendSibling(t, x));
      }
    }
  }

  // ---------- and which keep everybody's doom ----------

  /** Nobody else is marked, and who is stopping goes on stopping. */
  ghost predicate Steady(s: System, t: System) {
    && t.Keys == s.Keys
    && (forall x {:trigger SteadyAt(s, t, x)} :: x in s ==> SteadyAt(s, t, x))
  }

  ghost predicate SteadyAt(s: System, t: System, x: Pid)
    requires x in s && x in t
  {
    && (t[x].registry.children.Terminated? ==> s[x].registry.children.Terminated?)
    && (forall d <- Dying(t[x]) :: d in Dying(s[x]))
    && (s[x].stopped ==> t[x].stopped)
    && (Open(t, x) ==> (Stopping(s[x]) ==> Stopping(t[x])) && (Stop in s[x].inbox ==> Stop in t[x].inbox || Stopping(t[x])))
  }

  lemma SteadyKeeps(s: System, t: System)
    requires Steady(s, t)
    ensures Doomed(s) ==> Doomed(t)
  {
    forall p | Doomed(s) && Open(t, p) ensures CellDoomed(t, p) {
      assert SteadyAt(s, t, p) && CellDoomed(s, p);
      forall d | d in Dying(t[p]) ensures Facing(t, d) {
        SteadyFacing(s, t, d);
      }
    }
  }

  lemma SteadyFacing(s: System, t: System, d: Pid)
    requires Steady(s, t) && Facing(s, d)
    ensures Facing(t, d)
  {
    if d in s {
      assert SteadyAt(s, t, d);
    }
  }

  lemma DoomedAll(s: System, p: Pid, about: bool)
    requires Doomed(s)
    ensures DoomedBut(s, p, about)
  {
    forall x | Open(s, x) && x != p ensures CellDoomedBut(s, x, p, about) {
      assert CellDoomed(s, x);
    }
  }

  lemma SteadyKeepsBut(s: System, t: System, p: Pid, about: bool)
    requires Steady(s, t) && DoomedBut(s, p, about)
    ensures DoomedBut(t, p, about)
  {
    forall x | Open(t, x) && x != p ensures CellDoomedBut(t, x, p, about) {
      assert SteadyAt(s, t, x) && CellDoomedBut(s, x, p, about);
      forall d | d in Dying(t[x]) && (d != p || about) ensures Facing(t, d) {
        SteadyFacing(s, t, d);
      }
    }
  }

  /** A harmless change that leaves every registry alone is steady. */
  ghost predicate SameRegistries(s: System, t: System) {
    t.Keys == s.Keys && forall x :: x in s ==> t[x].registry == s[x].registry
  }

  lemma HarmlessSteady(s: System, t: System)
    requires Harmless(s, t) && SameRegistries(s, t)
    ensures Steady(s, t)
  {
    forall x | x in s ensures SteadyAt(s, t, x) {
      assert HarmlessAt(s, t, x);
    }
  }

  lemma {:induction false} SendEachRegistries(s: System, targets: seq<Pid>, m: SysMsg)
    ensures SameRegistries(s, SendEach(s, targets, m))
  {
    if targets != [] {
      SendEachRegistries(s, targets[..|targets| - 1], m);
    }
  }

  lemma {:induction false} SiblingsRegistries(s: System, targets: seq<Pid>, child: Pid)
    ensures SameRegistries(s, SuspendSiblings(s, targets, child))
  {
    if targets != [] {
      var t, x := SuspendSiblings(s, targets[..|targets| - 1], child), targets[|targets| - 1];
      SiblingsRegistries(s, targets[..|targets| - 1], child);
      if x != child && Open(t, x) {
        SendEachRegistries(t[x := t[x].(suspends := t[x].suspends + 1)], t[x].Children(), Suspend);
      }
    }
  }

  /** What a step keeps: every lifeline, and every doom that was in place. */
  ghost predicate Keeps(s: System, t: System) {
    (Tied(s) ==> Tied(t)) && (Doomed(s) ==> Doomed(t))
  }

  lemma SendEachKeeps(s: System, targets: seq<Pid>, m: SysMsg)
    requires Neutral(m)
    ensures Keeps(s, SendEach(s, targets, m))
  {
    var t := SendEach(s, targets, m);
    SendEachHarmless(s, targets, m);
    SendEachRegistries(s, targets, m);
    HarmlessSteady(s, t);
    SteadyKeeps(s, t);
    if Tied(s) {
      HarmlessKeeps(s, t);
    }
  }

  lemma SendKeeps(s: System, to: Pid, m: SysMsg)
    requires Neutral(m)
    ensures Keeps(s, Send(s, to, m))
  {
    var t := Send(s, to, m);
    SendHarmless(s, to, m);
    HarmlessSteady(s, t);
    SteadyKeeps(s, t);
    if Tied(s) {
      HarmlessKeeps(s, t);
    }
  }

  lemma LocalKeeps(s: System, p: Pid, c: Cell)
    requires p in s && c.parent == s[p].parent && c.stopped == s[p].stopped && c.inbox == s[p].inbox
    requires HarmlessRegistry(s[p].registry, c.registry)
    requires forall q :: Watch(q, Supervision) in s[p].watchers ==> Watch(q, Supervision) in c.watchers
    ensures Tied(s) ==> Tied(s[p := c])
    ensures c.registry == s[p].registry ==> Keeps(s, s[p := c])
  {
    LocalHarmless(s, p, c);
    if Tied(s) {
      HarmlessKeeps(s, s[p := c]);
    }
    if c.registry == s[p].registry {
      HarmlessSteady(s, s[p := c]);
      SteadyKeeps(s, s[p := c]);
    }
  }

  // ---------- one cell changes, and its first message may leave ----------

  /** The message that leaves the inbox is the notification of `d`. */
  ghost predicate Told(c: Cell, n: Cell, d: Pid) {
    c.inbox != [] && n.inbox == c.inbox[1..] && c.inbox[0] == DeathWatchNotification(d)
  }

  ghost predicate CellChange(s: System, p: Pid, c: Cell)
    requires p in s
  {
    && c.parent == s[p].parent && c.stopped == s[p].stopped
    && (c.inbox == s[p].inbox || (s[p].inbox != [] && c.inbox == s[p].inbox[1..]))
    && (forall q :: Watch(q, Supervision) in s[p].watchers ==> Watch(q, Supervision) in c.watchers)
    && (forall d :: Watch(d, Supervision) in s[p].registry.watching && !Told(s[p], c, d) ==> Watch(d, Supervision) in c.registry.watching)
  }

  lemma CellChangeTied(s: System, p: Pid, c: Cell)
    requires Tied(s) && Open(s, p) && CellChange(s, p, c) && c.registry.children.Valid()
    requires forall d :: c.Supervises(d) ==> Lifeline(s, p, d, c.inbox) && Watch(d, Supervision) in c.registry.watching
    ensures Tied(s[p := c])
  {
    var t := s[p := c];
    assert CellTied(s, p);
    if s[p].inbox != [] {
      InboxPop(s, p, s[p].inbox);
    }
    ChangedInbox(s, p, c);
    forall x | x in t ensures CellTied(t, x) {
      assert CellTied(s, x);
      if x != p && Open(s, x) {
        OtherCell(s, p, c, x);
      }
    }
  }

  lemma ChangedInbox(s: System, p: Pid, c: Cell)
    requires p in s && CellChange(s, p, c) && InboxTied(s, p, c.inbox)
    requires s[p].inbox != [] ==> MessageTied(s, p, s[p].inbox[0], s[p].inbox[1..])
    ensures InboxTied(s[p := c], p, c.inbox)
  {
    var t, q := s[p := c], c.inbox;
    forall k {:trigger q[k]} | 0 <= k < |q| ensures MessageTied(t, p, q[k], q[k + 1..]) {
      if q[k].Failure? {
        assert q[k] in q;
        assert !Told(s[p], c, q[k].child);
      }
    }
  }

  lemma OtherCell(s: System, p: Pid, c: Cell, x: Pid)
    requires p in s && CellChange(s, p, c) && x in s && x != p && Open(s, x) && CellTied(s, x)
    requires s[p].inbox != [] ==> MessageTied(s, p, s[p].inbox[0], s[p].inbox[1..])
    ensures CellTied(s[p := c], x)
  {
    var t, q := s[p := c], s[x].inbox;
    forall k {:trigger q[k]} | 0 <= k < |q| ensures MessageTied(t, x, q[k], q[k + 1..]) {
    }
    assert s[x].parent == Some(p) && Open(s, p) ==> !Told(s[p], c, x);
  }

  /** A popped message, other than a notification, ties nobody any more. */
  lemma PopTied(s: System, p: Pid)
    requires Tied(s) && Open(s, p) && s[p].inbox != [] && !s[p].inbox[0].DeathWatchNotification?
    ensures Tied(PopHead(s, p))
    ensures s[p].inbox[0].Failure? ==> Lifeline(s, p, s[p].inbox[0].child, s[p].inbox[1..])
  {
    assert CellTied(s, p);
    InboxPop(s, p, s[p].inbox);
    forall d | s[p].Supervises(d) ensures Lifeline(s, p, d, s[p].inbox[1..]) {
      assert s[p].inbox == [s[p].inbox[0]] + s[p].inbox[1..];
    }
    CellChangeTied(s, p, s[p].(inbox := s[p].inbox[1..]));
  }

  lemma PopSteady(s: System, p: Pid)
    requires p in s && s[p].inbox != [] && (s[p].inbox[0] != Stop || Stopping(s[p]))
    ensures Steady(s, PopHead(s, p))
  {
    var t := PopHead(s, p);
    forall x | x in s ensures SteadyAt(s, t, x) {
      if x == p {
        assert s[p].inbox == [s[p].inbox[0]] + s[p].inbox[1..];
      }
    }
  }

  lemma PopKeeps(s: System, p: Pid)
    requires Open(s, p) && s[p].inbox != [] && !s[p].inbox[0].DeathWatchNotification?
    requires s[p].inbox[0] != Stop || Stopping(s[p])
    ensures Keeps(s, PopHead(s, p))
  {
    if Tied(s) {
      PopTied(s, p);
    }
    PopSteady(s, p);
    SteadyKeeps(s, PopHead(s, p));
  }

  // ---------- failure reports ----------

  lemma SendReportTied(s: System, p: Pid, cause: Cause)
    requires Tied(s) && Open(s, p) && s[p].parent.Some?
    ensures Tied(Send(s, s[p].parent.value, Failure(p, cause)))
  {
    var q, m := s[p].parent.value, Failure(p, cause);
    var t := Send(s, q, m);
    assert CellTied(s, p);
    if Open(s, q) {
      forall x | x in t ensures CellTied(t, x) {
        assert CellTied(s, x);
        if x == q {
          ReportedCell(s, p, q, m);
        } else {
          UntouchedInbox(s, q, m, x);
        }
      }
    }
  }

  lemma UntouchedInbox(s: System, q: Pid, m: SysMsg, x: Pid)
    requires x in s && x != q && CellTied(s, x)
    ensures CellTied(Send(s, q, m), x)
  {
    var t, r := Send(s, q, m), s[x].inbox;
    forall k {:trigger r[k]} | 0 <= k < |r| && InboxTied(s, x, r) ensures MessageTied(t, x, r[k], r[k + 1..]) {
    }
  }

  lemma ReportedCell(s: System, p: Pid, q: Pid, m: SysMsg)
    requires Open(s, p) && Open(s, q) && s[p].parent == Some(q) && m.Failure? && m.child == p
    requires CellTied(s, q) && CellTied(s, p)
    ensures CellTied(Send(s, q, m), q)
  {
    var t := Send(s, q, m);
    ReportInbox(s, p, q, m);
    forall d | t[q].Supervises(d) ensures Lifeline(t, q, d, t[q].inbox) {
      assert s[q].Supervises(d);
      PrefixIn(s[q].inbox, t[q].inbox, DeathWatchNotification(d));
    }
  }

  lemma ReportInbox(s: System, p: Pid, q: Pid, m: SysMsg)
    requires Open(s, p) && Open(s, q) && s[p].parent == Some(q) && m.Failure? && m.child == p
    requires Watched(s, q, p) && InboxTied(s, q, s[q].inbox)
    ensures InboxTied(Send(s, q, m), q, s[q].inbox + [m])
  {
    var t, old_, new_ := Send(s, q, m), s[q].inbox, s[q].inbox + [m];
    forall k {:trigger new_[k]} | 0 <= k < |new_| ensures MessageTied(t, q, new_[k], new_[k + 1..]) {
      if k < |old_| {
        assert new_[k] == old_[k] && new_[k + 1..] == old_[k + 1..] + [m];
        assert MessageTied(s, q, old_[k], old_[k + 1..]);
      }
    }
  }

  lemma SendReportSteady(s: System, q: Pid, m: SysMsg)
    ensures Steady(s, Send(s, q, m))
  {
    forall x | x in s ensures SteadyAt(s, Send(s, q, m), x) {
    }
  }

  lemma KeepsTrans(s: System, t: System, u: System)
    requires Keeps(s, t) && Keeps(t, u)
    ensures Keeps(s, u)
  {
  }

  /** The first half of a report: the cell and its children are suspended. */
  lemma SuspensionKeeps(s: System, p: Pid, c: Cell)
    requires Open(s, p) && c == s[p].(suspends := c.suspends, failed := c.failed)
    ensures var u := SendEach(s[p := c], s[p].Children(), Suspend);
            Keeps(s, u) && SameRegistries(s, u) && Harmless(s, u)
  {
    var t := s[p := c];
    var u := SendEach(t, s[p].Children(), Suspend);
    LocalKeeps(s, p, c);
    LocalHarmless(s, p, c);
    SendEachKeeps(t, s[p].Children(), Suspend);
    SendEachHarmless(t, s[p].Children(), Suspend);
    SendEachRegistries(t, s[p].Children(), Suspend);
    HarmlessTrans(s, t, u);
    KeepsTrans(s, t, u);
  }

  lemma SendReportKeeps(s: System, p: Pid, cause: Cause)
    requires Open(s, p) && s[p].parent.Some?
    ensures Keeps(s, Send(s, s[p].parent.value, Failure(p, cause)))
  {
    var t := Send(s, s[p].parent.value, Failure(p, cause));
    if Tied(s) {
      SendReportTied(s, p, cause);
    }
    SendReportSteady(s, s[p].parent.value, Failure(p, cause));
    SteadyKeeps(s, t);
  }

  lemma ReportKeepsTies(s: System, p: Pid, cause: Cause)
    requires Open(s, p)
    ensures Keeps(s, ReportFailure(s, p, cause)) && Open(ReportFailure(s, p, cause), p)
    ensures SameRegistries(s, ReportFailure(s, p, cause))
  {
    var failed := if s[p].failed.NotFailed? then FailedBy(p) else s[p].failed;
    var c := s[p].(suspends := s[p].suspends + 1, failed := failed);
    var u := SendEach(s[p := c], s[p].Children(), Suspend);
    SuspensionKeeps(s, p, c);
    assert HarmlessAt(s, u, p);
    if s[p].parent.Some? && Open(s, s[p].parent.value) {
      SendReportKeeps(u, p, cause);
      KeepsTrans(s, u, Send(u, s[p].parent.value, Failure(p, cause)));
    } else {
      SendKeeps(u, p, Stop);
      KeepsTrans(s, u, Send(u, p, Stop));
    }
  }

  // ---------- termination ----------

  /** The notifications `q` gets when `dead` stops: one for each of its watches. */
  ghost function Notices(watchers: seq<Watch>, q: Pid, dead: Pid): seq<SysMsg> {
    if watchers == [] then []
    else if watchers[|watchers| - 1].pid == q then Notices(watchers[..|watchers| - 1], q, dead) + [DeathWatchNotification(dead)]
    else Notices(watchers[..|watchers| - 1], q, dead)
  }

  lemma {:induction false} NoticesAre(watchers: seq<Watch>, q: Pid, dead: Pid)
    ensures forall m <- Notices(watchers, q, dead) :: m == DeathWatchNotification(dead)
    ensures forall w <- watchers :: w.pid == q ==> DeathWatchNotification(dead) in Notices(watchers, q, dead)
  {
    if watchers != [] {
      NoticesAre(watchers[..|watchers| - 1], q, dead);
      assert watchers == watchers[..|watchers| - 1] + [watchers[|watchers| - 1]];
    }
  }

  lemma SendCell(s: System, to: Pid, m: SysMsg, q: Pid)
    requires q in s
    ensures Send(s, to, m)[q] == if to == q && Open(s, q) then s[q].(inbox := s[q].inbox + [m]) else s[q]
  {
  }

  lemma AppendsInTurn(a: seq<SysMsg>, b: seq<SysMsg>, m: SysMsg)
    ensures a + (b + [m]) == a + b + [m]
  {
  }

  /** Every open watcher is notified once for each of its watches, and nothing else changes. */
  lemma {:induction false} NotifyReaches(s: System, watchers: seq<Watch>, dead: Pid, q: Pid)
    requires q in s
    ensures NotifyEach(s, watchers, dead)[q]
            == if Open(s, q) then s[q].(inbox := s[q].inbox + Notices(watchers, q, dead)) else s[q]
  {
    if watchers == [] {
      assert s[q].inbox + [] == s[q].inbox;
    } else {
      var front, last := watchers[..|watchers| - 1], watchers[|watchers| - 1];
      NotifyReaches(s, front, dead, q);
      SendCell(NotifyEach(s, front, dead), last.pid, DeathWatchNotification(dead), q);
      AppendsInTurn(s[q].inbox, Notices(front, q, dead), DeathWatchNotification(dead));
    }
  }

  /** What the end of `p` does to a cell other than its own. */
  lemma TerminateReaches(s: System, p: Pid, x: Pid)
    requires Open(s, p) && x in s && x != p
    ensures var t := FinishTerminate(s, p);
            && t[x].parent == s[x].parent && t[x].stopped == s[x].stopped && t[x].watchers == s[x].watchers
            && t[x].registry == (if s[p].parent == Some(x) then Unregistered(s[x].registry, p) else s[x].registry)
            && (Open(s, x) ==> t[x].inbox == s[x].inbox + Notices(s[p].watchers, x, p))
  {
    var d := s[p].(stopped := true, watchers := []);
    NotifyReaches(s[p := d], s[p].watchers, p, x);
  }

  lemma TerminateCloses(s: System, p: Pid)
    requires Open(s, p) && s[p].parent != Some(p)
    ensures var t := FinishTerminate(s, p); t.Keys == s.Keys && t[p].stopped && t[p].parent == s[p].parent
  {
    var d := s[p].(stopped := true, watchers := []);
    NotifyReaches(s[p := d], s[p].watchers, p, p);
  }

  lemma WatchedStays(r: Registry, d: Pid)
    requires Watch(d, Supervision) in r.watching
    ensures Unregistered(r, d) == r
  {
    WatchesMember(r.watching, Watch(d, Supervision));
  }

  /** The registry of an open cell is not touched by the end of a child it watches. */
  lemma TerminateTiedCell(s: System, p: Pid, x: Pid)
    requires Tied(s) && Open(s, p) && Open(s, x) && x != p
    ensures var t := FinishTerminate(s, p);
            && t[x].registry == s[x].registry && t[x].inbox == s[x].inbox + Notices(s[p].watchers, x, p)
            && (s[p].parent == Some(x) ==> DeathWatchNotification(p) in Notices(s[p].watchers, x, p))
  {
    TerminateReaches(s, p, x);
    NoticesAre(s[p].watchers, x, p);
    assert CellTied(s, p);
    if s[p].parent == Some(x) {
      WatchedStays(s[x].registry, p);
    }
  }

  lemma TerminateTied(s: System, p: Pid)
    requires Tied(s) && Open(s, p)
    ensures Tied(FinishTerminate(s, p))
  {
    var t := FinishTerminate(s, p);
    assert CellTied(s, p);
    TerminateCloses(s, p);
    forall x | x in t ensures CellTied(t, x) {
      assert CellTied(s, x);
      if x != p {
        TerminateReaches(s, p, x);
        if Open(s, x) {
          TerminateKeepsCell(s, p, x);
        }
      }
    }
  }

  lemma TerminateKeepsCell(s: System, p: Pid, x: Pid)
    requires Tied(s) && Open(s, p) && Open(s, x) && x != p
    ensures CellTied(FinishTerminate(s, p), x)
  {
    var t, more := FinishTerminate(s, p), Notices(s[p].watchers, x, p);
    assert CellTied(s, p) && CellTied(s, x);
    TerminateTiedCell(s, p, x);
    NoticesAre(s[p].watchers, x, p);
    TerminateCloses(s, p);
    forall y | y in s ensures y in t && t[y].parent == s[y].parent && t[y].stopped == (s[y].stopped || y == p) {
      if y != p {
        TerminateReaches(s, p, y);
      }
    }
    TerminateReaches(s, p, x);
    TerminateInbox(s, t, p, x, more);
    forall d | t[x].Supervises(d) ensures Lifeline(t, x, d, t[x].inbox) {
      assert s[x].Supervises(d);
      PrefixIn(s[x].inbox, t[x].inbox, DeathWatchNotification(d));
    }
    if s[x].parent.Some? && Open(t, s[x].parent.value) {
      TerminateTiedCell(s, p, s[x].parent.value);
    }
  }

  lemma TerminateInbox(s: System, t: System, p: Pid, x: Pid, more: seq<SysMsg>)
    requires Open(s, x) && x in t && InboxTied(s, x, s[x].inbox) && t[x].registry == s[x].registry
    requires p in s && p in t && t[p].stopped && forall m <- more :: m == DeathWatchNotification(p)
    requires forall y :: y in s ==> y in t && t[y].parent == s[y].parent && t[y].stopped == (s[y].stopped || y == p)
    requires s[p].parent == Some(x) ==> DeathWatchNotification(p) in more
    ensures InboxTied(t, x, s[x].inbox + more)
  {
    var q, r := s[x].inbox, s[x].inbox + more;
    forall k {:trigger r[k]} | 0 <= k < |r| ensures MessageTied(t, x, r[k], r[k + 1..]) {
      if k < |q| {
        assert r[k] == q[k] && r[k + 1..] == q[k + 1..] + more;
        assert MessageTied(s, x, q[k], q[k + 1..]);
        MessageKept(s, t, x, q[k], q[k + 1..], more);
        assert MessageTied(t, x, q[k], q[k + 1..] + more);
      } else {
        assert r[k] == more[k - |q|] && more[k - |q|] in more;
        var rest := r[k + 1..];
        forall i | 0 <= i < |rest| ensures rest[i] == DeathWatchNotification(p) {
          assert rest[i] == more[k - |q| + 1 + i] && more[k - |q| + 1 + i] in more;
        }
      }
    }
  }

  lemma TerminateDoomed(s: System, p: Pid)
    requires Tied(s) && Open(s, p) && DoomedBut(s, p, false)
    ensures Doomed(FinishTerminate(s, p))
  {
    var t := FinishTerminate(s, p);
    assert CellTied(s, p);
    TerminateCloses(s, p);
    forall x | Open(t, x) ensures CellDoomed(t, x) {
      TerminateReaches(s, p, x);
      TerminateTiedCell(s, p, x);
      assert CellDoomedBut(s, x, p, false);
      forall d | d in Dying(t[x]) ensures Facing(t, d) {
        if Open(t, d) {
          assert d != p && Facing(s, d);
          TerminateReaches(s, p, d);
          TerminateTiedCell(s, p, d);
        }
      }
    }
  }

  lemma TerminateKeeps(s: System, p: Pid)
    requires Tied(s) && Open(s, p)
    ensures Tied(FinishTerminate(s, p)) && (DoomedBut(s, p, false) ==> Doomed(FinishTerminate(s, p)))
  {
    TerminateTied(s, p);
    if DoomedBut(s, p, false) {
      TerminateDoomed(s, p);
    }
  }

  // ---------- marking and stopping ----------

  lemma MarkedHarmless(r: Registry, pids: seq<Pid>, reason: Option<SuspendReason>)
    requires forall x <- pids :: r.children.Registered(x)
    ensures var marked := MarkAll(r.children, pids);
            HarmlessRegistry(r, r.(children := if reason.None? then marked else SetReason(marked, reason.value).0))
  {
    MarkAllKeeps(r.children, pids);
    if r.children.Valid() {
      MarkAllValid(r.children, pids);
    }
  }

  /** The cell marks children, and every one of them gets its Stop. */
  lemma MarkAndStop(s: System, p: Pid, c: Cell, about: bool)
    requires Open(s, p) && CellTied(s, p) && c.parent == s[p].parent && c.stopped == s[p].stopped && c.inbox == s[p].inbox
    requires HarmlessRegistry(s[p].registry, c.registry) && c.watchers == s[p].watchers
    requires !c.registry.children.Terminated? && (Stopping(c) || (about && !Stopping(s[p])))
    requires forall d <- Dying(c) :: d in s[p].Children()
    ensures var t := SendEach(s[p := c], s[p].Children(), Stop);
            (Tied(s) ==> Tied(t)) && (DoomedBut(s, p, about) ==> Doomed(t))
  {
    var u, pids := s[p := c], s[p].Children();
    LocalKeeps(s, p, c);
    SendEachKeeps(u, pids, Stop);
    if DoomedBut(s, p, about) {
      LocalDoomed(s, p, c, about);
      MarkedDoomed(s, p, c);
    }
  }

  /** Nobody else depends on a change of `p` that keeps it stopping or its Stop in the inbox. */
  lemma LocalDoomed(s: System, p: Pid, c: Cell, about: bool)
    requires p in s && DoomedBut(s, p, about) && c.stopped == s[p].stopped
    requires Stopping(c) || (about && c.inbox == s[p].inbox && !Stopping(s[p]))
    ensures DoomedBut(s[p := c], p, true)
  {
    var t := s[p := c];
    forall x | Open(t, x) && x != p ensures CellDoomedBut(t, x, p, true) {
      assert CellDoomedBut(s, x, p, about);
      forall d | d in Dying(t[x]) ensures Facing(t, d) {
        assert d == p || Facing(s, d);
      }
    }
  }

  lemma MarkedDoomed(s: System, p: Pid, c: Cell)
    requires Open(s, p) && CellTied(s, p) && c.stopped == s[p].stopped && DoomedBut(s[p := c], p, true)
    requires !c.registry.children.Terminated? && forall d <- Dying(c) :: d in s[p].Children()
    ensures Doomed(SendEach(s[p := c], s[p].Children(), Stop))
  {
    var u, pids := s[p := c], s[p].Children();
    var t := SendEach(u, pids, Stop);
    SendEachHarmless(u, pids, Stop);
    SendEachRegistries(u, pids, Stop);
    HarmlessSteady(u, t);
    SteadyKeepsBut(u, t, p, true);
    ChildrenListed(s[p].registry.children, p);
    SendEachResult(u, pids, Stop);
    assert HarmlessAt(u, t, p);
    forall d | d in Dying(t[p]) ensures Facing(t, d) {
      assert d in pids;
      if Open(t, d) {
        assert HarmlessAt(u, t, d);
        assert t[d] == Received(u, d, pids, Stop);
      }
    }
    DoomedSelf(t, p);
  }

  lemma DoomedSelf(s: System, p: Pid)
    requires DoomedBut(s, p, true) && (Open(s, p) ==> CellDoomed(s, p))
    ensures Doomed(s)
  {
    forall x | Open(s, x) ensures CellDoomed(s, x) {
      if x != p {
        assert CellDoomedBut(s, x, p, true);
      }
    }
  }

  lemma StoppedChildren(s: System, p: Pid)
    requires Open(s, p) && CellTied(s, p)
    ensures var r := ChildrenStopped(s[p].registry);
            && HarmlessRegistry(s[p].registry, r)
            && (r.children.Terminated? <==> s[p].registry.children.Terminated?)
            && (r.children.IsTerminating() <==> s[p].registry.children.IsTerminating())
            && forall d <- Dying(s[p].(registry := r)) :: d in s[p].Children()
  {
    AllListed(s[p].registry.children);
    MarkedHarmless(s[p].registry, s[p].Children(), None);
    MarkAllKeeps(s[p].registry.children, s[p].Children());
    MarkAllValid(s[p].registry.children, s[p].Children());
    DyingListed(s[p].registry.children, s[p].Children());
  }

  /** Whoever has to die is a registered child. */
  lemma DyingListed(a: Container, pids: seq<Pid>)
    requires a.Valid() && pids == a.Children()
    ensures MarkAll(a, pids).Terminating? ==> forall d <- MarkAll(a, pids).toDie :: d in pids
    ensures a.Terminating? ==> forall d <- a.toDie :: d in pids
  {
    AllListed(a);
    MarkAllValid(a, pids);
    MarkAllKeeps(a, pids);
    forall d | MarkAll(a, pids).Terminating? && d in MarkAll(a, pids).toDie ensures d in pids {
      assert HasChild(MarkAll(a, pids).c, d);
      assert a.Registered(d);
    }
    forall d | a.Terminating? && d in a.toDie ensures d in pids {
      assert HasChild(a.c, d);
      assert a.Registered(d);
    }
  }

  lemma StopAllKeeps(s: System, p: Pid)
    requires Open(s, p) && Tied(s)
    ensures Tied(StopAllChildren(s, p)) && (Doomed(s) ==> Doomed(StopAllChildren(s, p)))
    ensures var t := StopAllChildren(s, p);
            && t[p].inbox == s[p].inbox && !t[p].stopped && t[p].failed == s[p].failed
            && t[p].registry == ChildrenStopped(s[p].registry) && (Stopping(t[p]) <==> Stopping(s[p]))
  {
    assert CellTied(s, p);
    StoppedChildren(s, p);
    var c := s[p].(registry := ChildrenStopped(s[p].registry));
    if Doomed(s) {
      assert CellDoomed(s, p);
    }
    if !s[p].registry.children.Terminated? {
      MarkAndStop(s, p, c, true);
      if Doomed(s) {
        DoomedAll(s, p, true);
      }
    } else {
      LocalKeeps(s, p, c);
      SendEachKeeps(s[p := c], s[p].Children(), Stop);
    }
    OwnCell(s, p, c);
  }

  lemma OwnCell(s: System, p: Pid, c: Cell)
    requires Open(s, p) && CellTied(s, p)
    ensures SendEach(s[p := c], s[p].Children(), Stop)[p] == c
  {
    AllListed(s[p].registry.children);
    assert s[p].Supervises(p) ==> Lifeline(s, p, p, s[p].inbox);
    ChildrenListed(s[p].registry.children, p);
    SendEachResult(s[p := c], s[p].Children(), Stop);
  }

  lemma PopDoomed(s: System, p: Pid)
    requires p in s && s[p].inbox != [] && Doomed(s)
    ensures DoomedBut(PopHead(s, p), p, false)
    ensures s[p].inbox[0] != Stop ==> DoomedBut(PopHead(s, p), p, true)
  {
    var t := PopHead(s, p);
    assert s[p].inbox == [s[p].inbox[0]] + s[p].inbox[1..];
    forall x | Open(t, x) && x != p
      ensures CellDoomedBut(t, x, p, false) && (s[p].inbox[0] != Stop ==> CellDoomedBut(t, x, p, true))
    {
      assert CellDoomed(s, x);
      forall d | d in Dying(t[x]) ensures d == p || Facing(t, d) {
        assert Facing(s, d);
      }
    }
  }

  lemma OnStopKeeps(s: System, p: Pid)
    requires Tied(s) && Open(s, p) && s[p].inbox != [] && s[p].inbox[0] == Stop
    ensures Keeps(s, OnStop(s, p))
  {
    var t := PopHead(s, p);
    PopTied(s, p);
    assert CellTied(t, p);
    if Doomed(s) {
      PopDoomed(s, p);
    }
    var children, pids := s[p].registry.children, s[p].Children();
    if Stopping(s[p]) {
      PopKeeps(s, p);
    } else if pids == [] {
      TerminateKeeps(t, p);
    } else {
      StoppingCell(t, p);
      var marked := SetReason(MarkAll(children, pids), Termination).0;
      MarkAndStop(t, p, t[p].(registry := t[p].registry.(children := marked), suspends := t[p].suspends + 1), false);
    }
  }

  lemma StoppingCell(s: System, p: Pid)
    requires Open(s, p) && CellTied(s, p) && s[p].Children() != []
    ensures var marked := SetReason(MarkAll(s[p].registry.children, s[p].Children()), Termination).0;
            && HarmlessRegistry(s[p].registry, s[p].registry.(children := marked))
            && marked.IsTerminating() && marked.Terminating? && forall d <- marked.toDie :: d in s[p].Children()
  {
    var a, pids := s[p].registry.children, s[p].Children();
    AllListed(a);
    MarkedHarmless(s[p].registry, pids, Some(Termination));
    MarkAllDying(a, pids, pids[0]);
    DyingListed(a, pids);
  }

  lemma OnStopChildKeeps(s: System, p: Pid, child: Pid)
    requires Tied(s) && Open(s, p) && s[p].inbox != [] && s[p].inbox[0] == StopChild(child)
    ensures Keeps(s, OnStopChild(s, p, child))
  {
    var t, a := PopHead(s, p), s[p].registry.children;
    PopTied(s, p);
    PopKeeps(s, p);
    assert CellTied(t, p);
    if a.Registered(child) && !a.IsTerminating() {
      var c := t[p].(registry := t[p].registry.(children := ShallDie(a, child)));
      StepKeepsValid(a, OpShallDie(child));
      LocalKeeps(t, p, c);
      SendKeeps(t[p := c], child, Stop);
      if Doomed(s) {
        assert CellDoomed(t, p);
        DoomedAll(t, p, true);
        LocalDoomed(t, p, c, true);
        OneMoreDoomed(t, p, c, child);
      }
    }
  }

  lemma OneMoreDoomed(s: System, p: Pid, c: Cell, child: Pid)
    requires Open(s, p) && CellDoomed(s, p) && c.stopped == s[p].stopped && c.inbox == s[p].inbox
    requires DoomedBut(s[p := c], p, true) && !c.registry.children.Terminated? && !Stopping(s[p])
    requires forall d <- Dying(c) :: d == child || d in Dying(s[p])
    ensures Doomed(Send(s[p := c], child, Stop))
  {
    var u := s[p := c];
    var t := Send(u, child, Stop);
    SendReportSteady(u, child, Stop);
    SteadyKeepsBut(u, t, p, true);
    forall d | d in Dying(t[p]) ensures Facing(t, d) {
      if d != child {
        assert Facing(s, d);
        assert Facing(u, d);
        SteadyFacing(u, t, d);
      }
    }
    DoomedSelf(t, p);
  }

  // ---------- restarts and notifications ----------

  lemma FinishKeeps(s: System, p: Pid, error: Cause, ok: bool)
    requires Open(s, p)
    ensures Keeps(s, FinishRecreate(s, p, error, ok))
  {
    var left := if s[p].suspends == 0 then 0 else s[p].suspends - 1;
    var c := s[p].(deferredCause := None, suspends := left, failed := if ok then NotFailed else Fatal);
    LocalKeeps(s, p, c);
    if !ok {
      ReportKeepsTies(s[p := c], p, error);
      KeepsTrans(s, s[p := c], ReportFailure(s[p := c], p, error));
    }
  }

  /** `q` waits for the end of `p`. */
  ghost predicate WaitsFor(s: System, q: Pid, p: Pid) {
    Open(s, q) && p in Dying(s[q])
  }

  /** Nobody counts on `p` to go on stopping. */
  ghost predicate MayTurn(s: System, p: Pid)
    requires p in s
  {
    !Stopping(s[p]) || Stop in s[p].inbox || !exists q :: WaitsFor(s, q, p)
  }

  /** A changed reason leaves everybody's doom in place when nobody counts on the old one. */
  lemma TurnDoomed(s: System, p: Pid, c: Cell)
    requires Doomed(s) && Open(s, p) && MayTurn(s, p)
    requires c.stopped == s[p].stopped && c.inbox == s[p].inbox && Dying(c) == Dying(s[p]) && !c.registry.children.Terminated?
    ensures Doomed(s[p := c])
  {
    var t := s[p := c];
    forall x | Open(t, x) ensures CellDoomed(t, x) {
      assert CellDoomed(s, x);
      forall d | d in Dying(t[x]) ensures Facing(t, d) {
        assert Facing(s, d) && WaitsFor(s, x, d);
      }
    }
  }

  /** The second half of `OnRecreate`, after the children were stopped or not. */
  lemma RestartKeepsTies(s: System, p: Pid, cause: Cause, h: Hooks)
    requires Tied(s) && Open(s, p) && h.preRestart
    ensures var (children, deferred) := SetReason(s[p].registry.children, Recreation(cause));
            var c := s[p].(deferredCause := Some(cause), registry := s[p].registry.(children := children));
            var t := if deferred then s[p := c] else FinishRecreate(s[p := c], p, h.error, h.postRestart);
            Tied(t) && (Doomed(s) && MayTurn(s, p) ==> Doomed(t))
  {
    var (children, deferred) := SetReason(s[p].registry.children, Recreation(cause));
    var c := s[p].(deferredCause := Some(cause), registry := s[p].registry.(children := children));
    LocalKeeps(s, p, c);
    if Doomed(s) && MayTurn(s, p) {
      assert CellDoomed(s, p);
      TurnDoomed(s, p, c);
    }
    if !deferred {
      FinishKeeps(s[p := c], p, h.error, h.postRestart);
    }
  }

  /** A Recreate that replaces the reason of a stop under way. */
  predicate Overrides(c: Cell, h: Hooks) {
    Stopping(c) && !c.failed.Fatal? && h.preRestart
  }

  /** And with it abandons whoever waits for the cell: no further Stop is queued. */
  ghost predicate Abandons(s: System, p: Pid, h: Hooks)
    requires p in s
  {
    Overrides(s[p], h) && Stop !in s[p].inbox && exists q :: WaitsFor(s, q, p)
  }

  /** The state in which the reason of a restart is set: children stopped or not, and the message gone. */
  ghost function BeforeReason(s: System, p: Pid, h: Hooks): System
    requires p in s
  {
    PopHead(if h.stopsChildren then StopAllChildren(s, p) else s, p)
  }

  lemma BeforeReasonKeeps(s: System, p: Pid, h: Hooks)
    requires Tied(s) && Open(s, p) && s[p].inbox != [] && s[p].inbox[0].Recreate?
    ensures var t := BeforeReason(s, p, h);
            && Tied(t) && Open(t, p) && t[p].inbox == s[p].inbox[1..] && (Stopping(t[p]) <==> Stopping(s[p]))
            && (Doomed(s) ==> Doomed(t))
    ensures forall q :: WaitsFor(BeforeReason(s, p, h), q, p) <==> WaitsFor(s, q, p)
  {
    if h.stopsChildren {
      StopAllKeeps(s, p);
    }
    var u := if h.stopsChildren then StopAllChildren(s, p) else s;
    PopKeeps(u, p);
    WaitersStay(s, p, h);
  }

  /** Nobody is its own child, and only the cell's own registry changes. */
  lemma WaitersStay(s: System, p: Pid, h: Hooks)
    requires Tied(s) && Open(s, p) && s[p].inbox != []
    ensures forall q :: WaitsFor(BeforeReason(s, p, h), q, p) <==> WaitsFor(s, q, p)
  {
    var c := s[p].(registry := ChildrenStopped(s[p].registry));
    var u := if h.stopsChildren then StopAllChildren(s, p) else s;
    SendEachHarmless(s[p := c], s[p].Children(), Stop);
    SendEachRegistries(s[p := c], s[p].Children(), Stop);
    forall q ensures WaitsFor(BeforeReason(s, p, h), q, p) <==> WaitsFor(s, q, p) {
      if q == p {
        StoppedChildren(s, p);
        assert CellTied(s, p);
        NotOwnChild(s, p);
      } else if q in s {
        assert HarmlessAt(s[p := c], SendEach(s[p := c], s[p].Children(), Stop), q);
      }
    }
  }

  lemma NotOwnChild(s: System, p: Pid)
    requires Open(s, p) && CellTied(s, p)
    ensures !s[p].Supervises(p) && p !in s[p].Children() && p !in Dying(s[p])
  {
    assert s[p].Supervises(p) ==> Lifeline(s, p, p, s[p].inbox);
    AllListed(s[p].registry.children);
    DyingListed(s[p].registry.children, s[p].Children());
  }

  lemma OnRecreateTied(s: System, p: Pid, cause: Cause, h: Hooks)
    requires Tied(s) && Open(s, p) && s[p].inbox != [] && s[p].inbox[0] == Recreate(cause)
    ensures Tied(OnRecreate(s, p, cause, h))
    ensures Doomed(s) && !Abandons(s, p, h) ==> Doomed(OnRecreate(s, p, cause, h))
  {
    if s[p].failed.Fatal? {
      PopKeeps(s, p);
    } else {
      BeforeReasonKeeps(s, p, h);
      if h.preRestart {
        RestartKeepsTies(BeforeReason(s, p, h), p, cause, h);
        assert s[p].inbox == [s[p].inbox[0]] + s[p].inbox[1..];
      }
    }
  }

  /** The cell an override leaves: waiting to restart, with no Stop to come. */
  lemma AbandonedCell(s: System, p: Pid, cause: Cause, h: Hooks)
    requires Tied(s) && Doomed(s) && Open(s, p) && s[p].inbox != [] && s[p].inbox[0] == Recreate(cause) && Abandons(s, p, h)
    ensures var t := OnRecreate(s, p, cause, h);
            && Open(t, p) && !Stopping(t[p]) && Stop !in t[p].inbox
            && forall q :: WaitsFor(s, q, p) ==> WaitsFor(t, q, p)
  {
    BeforeReasonKeeps(s, p, h);
    var u := BeforeReason(s, p, h);
    assert CellDoomed(u, p) && CellTied(u, p);
    NotOwnChild(u, p);
    assert s[p].inbox == [s[p].inbox[0]] + s[p].inbox[1..];
  }

  /** The exact case in which a restart breaks a promise: somebody waits for the stop it overrides. */
  lemma OnRecreateExact(s: System, p: Pid, cause: Cause, h: Hooks)
    requires Tied(s) && Doomed(s) && Open(s, p) && s[p].inbox != [] && s[p].inbox[0] == Recreate(cause)
    ensures Doomed(OnRecreate(s, p, cause, h)) <==> !Abandons(s, p, h)
  {
    OnRecreateTied(s, p, cause, h);
    if Abandons(s, p, h) {
      AbandonedCell(s, p, cause, h);
      var q :| WaitsFor(s, q, p);
      var t := OnRecreate(s, p, cause, h);
      assert WaitsFor(t, q, p) && !Facing(t, p);
      assert !CellDoomed(t, q);
    }
  }

  lemma NotifiedTied(s: System, p: Pid, dead: Pid, c: Cell)
    requires Tied(s) && Open(s, p) && s[p].inbox != [] && s[p].inbox[0] == DeathWatchNotification(dead)
    requires c == s[p].(registry := Notified(s[p].registry, dead).0, inbox := s[p].inbox[1..])
    ensures Tied(s[p := c])
  {
    assert CellTied(s, p);
    var r := s[p].registry;
    forall d | r.children.Registered(d) ensures Watch(d, Supervision) in r.watching {
      assert s[p].Supervises(d);
    }
    NotifiedKeeps(r, dead);
    RemoveUnregisters(r.children, dead);
    assert s[p].inbox == [s[p].inbox[0]] + s[p].inbox[1..];
    forall d | c.Supervises(d) ensures Lifeline(s, p, d, c.inbox) && Watch(d, Supervision) in c.registry.watching {
      assert c.registry.children.Registered(d);
      assert s[p].Supervises(d);
    }
    CellChangeTied(s, p, c);
  }

  lemma NotifiedDoomed(s: System, p: Pid, dead: Pid, c: Cell)
    requires Tied(s) && Open(s, p) && s[p].inbox != [] && s[p].inbox[0] == DeathWatchNotification(dead) && Doomed(s)
    requires c == s[p].(registry := Notified(s[p].registry, dead).0, inbox := s[p].inbox[1..])
    ensures var change := Notified(s[p].registry, dead).1;
            if change == Some(Termination) then DoomedBut(s[p := c], p, false) else Doomed(s[p := c])
  {
    var r, t := s[p].registry, s[p := c];
    assert CellTied(s, p) && CellDoomed(s, p);
    forall d | r.children.Registered(d) ensures Watch(d, Supervision) in r.watching {
      assert s[p].Supervises(d);
    }
    NotifiedKeeps(r, dead);
    RemovalCompletes(r.children, dead);
    assert s[p].inbox == [s[p].inbox[0]] + s[p].inbox[1..];
    var going := Notified(r, dead).1 != Some(Termination);
    forall x | Open(t, x) && x != p ensures CellDoomedBut(t, x, p, going) {
      assert CellDoomed(s, x);
      forall d | d in Dying(t[x]) && (d != p || going) ensures Facing(t, d) {
        assert Facing(s, d);
      }
    }
    if going {
      forall d | d in Dying(c) ensures Facing(t, d) {
        assert d in Dying(s[p]);
        assert Facing(s, d);
      }
      DoomedSelf(t, p);
    }
  }

  lemma OnNotificationKeeps(s: System, p: Pid, dead: Pid, h: Hooks)
    requires Tied(s) && Open(s, p) && s[p].inbox != [] && s[p].inbox[0] == DeathWatchNotification(dead)
    ensures Keeps(s, OnNotification(s, p, dead, h))
  {
    var (r, change) := Notified(s[p].registry, dead);
    var c := s[p].(registry := r, inbox := s[p].inbox[1..]);
    assert PopHead(s[p := s[p].(registry := r)], p) == s[p := c];
    NotifiedTied(s, p, dead, c);
    if Doomed(s) {
      NotifiedDoomed(s, p, dead, c);
    }
    match change {
      case Some(Recreation(_)) => FinishKeeps(s[p := c], p, h.error, h.postRestart);
      case Some(Termination) => TerminateKeeps(s[p := c], p);
      case _ =>
    }
  }

  // ---------- answers to failures ----------

  lemma DirectKeepsTies(s: System, p: Pid, child: Pid, cause: Cause, directive: Directive, affected: seq<Pid>)
    requires Open(s, p)
    ensures Keeps(s, Direct(s, p, child, cause, directive, affected))
  {
    match directive {
      case RestartChild =>
        var u := SuspendSiblings(s, affected, child);
        SiblingsKeep(s, affected, child);
        SendEachKeeps(u, affected, Recreate(cause));
        var t := SendEach(u, affected, Recreate(cause));
        KeepsTrans(s, u, t);
        SendEachHarmless(u, affected, Recreate(cause));
        assert HarmlessAt(s, u, p) && HarmlessAt(u, t, p);
        ReportKeepsTies(t, p, cause);
        KeepsTrans(s, t, ReportFailure(t, p, cause));
      case StopThem => SendEachKeeps(s, affected, Stop);
      case EscalateUp =>
        var t := SendEach(s, affected, Stop);
        SendEachKeeps(s, affected, Stop);
        SendEachHarmless(s, affected, Stop);
        assert HarmlessAt(s, t, p);
        ReportKeepsTies(t, p, cause);
        KeepsTrans(s, t, ReportFailure(t, p, cause));
      case ResumeChild => SendEachKeeps(s, affected, Resume);
    }
  }

  lemma SiblingsKeep(s: System, affected: seq<Pid>, child: Pid)
    ensures Keeps(s, SuspendSiblings(s, affected, child)) && Harmless(s, SuspendSiblings(s, affected, child))
  {
    var t := SuspendSiblings(s, affected, child);
    SiblingsHarmless(s, affected, child);
    SiblingsRegistries(s, affected, child);
    HarmlessSteady(s, t);
    SteadyKeeps(s, t);
    if Tied(s) {
      HarmlessKeeps(s, t);
    }
  }

  /** A report may register its child again; its lifeline is still there. */
  lemma FailureRegistryKeeps(s: System, p: Pid, child: Pid, next: Container, stats: Stats, removed: seq<Pid>)
    requires Tied(s) && Open(s, p) && s[p].inbox != [] && s[p].inbox[0].Failure? && s[p].inbox[0].child == child
    requires next == AfterFailure(s[p].registry.children, child, stats, removed)
    ensures Keeps(s, s[p := s[p].(registry := s[p].registry.(children := next))])
  {
    var c := s[p].(registry := s[p].registry.(children := next));
    var t, a := s[p := c], s[p].registry.children;
    assert CellTied(s, p);
    InboxPop(s, p, s[p].inbox);
    AfterFailureKeeps(a, child, stats, removed);
    forall d | c.Supervises(d) ensures Lifeline(s, p, d, c.inbox) && Watch(d, Supervision) in c.registry.watching {
      assert next.Registered(d);
      assert d == child || s[p].Supervises(d);
      assert s[p].inbox == [s[p].inbox[0]] + s[p].inbox[1..];
    }
    CellChangeTied(s, p, c);
    forall x | x in s ensures SteadyAt(s, t, x) {
    }
    SteadyKeeps(s, t);
  }

  lemma OnFailureKeeps(s: System, p: Pid, child: Pid, cause: Cause, h: Hooks)
    requires Tied(s) && Open(s, p) && s[p].inbox != [] && s[p].inbox[0] == Failure(child, cause)
    ensures Keeps(s, OnFailure(s, p, child, cause, h))
  {
    var children := s[p].registry.children;
    var directive := if children.Terminated? then StopThem else h.directive;
    var affected := Affected(children, child, h);
    var next := ChildrenAfterFailure(children, child, affected, directive, h.stats);
    var t := s[p := s[p].(registry := s[p].registry.(children := next))];
    FailureRegistryKeeps(s, p, child, next, h.stats, if directive.StopThem? then affected else []);
    var u := if h.onChildFailed then t else ReportFailure(t, p, h.error);
    if !h.onChildFailed {
      ReportKeepsTies(t, p, h.error);
      ReportHead(t, p, h.error);
    }
    KeepsTrans(s, t, u);
    PopKeeps(u, p);
    DirectKeepsTies(PopHead(u, p), p, child, cause, directive, affected);
  }

  // ---------- spawning ----------

  lemma SpawnTied(s: System, p: Pid, x: Pid)
    requires Tied(s) && Open(s, p) && x !in s && p < x
    ensures Tied(Spawn(s, p, x))
  {
    var t := Spawn(s, p, x);
    assert CellTied(s, p);
    AddRegisters(s[p].registry.children, x);
    forall y | y in t ensures CellTied(t, y) {
      if y == x {
        assert !exists d :: t[x].Supervises(d);
      } else {
        assert CellTied(s, y);
        SpawnCell(s, p, x, y);
      }
    }
  }

  lemma SpawnCell(s: System, p: Pid, x: Pid, y: Pid)
    requires Open(s, p) && CellTied(s, p) && x !in s && p < x && y in s && CellTied(s, y)
    ensures CellTied(Spawn(s, p, x), y)
  {
    var t, q := Spawn(s, p, x), s[y].inbox;
    AddRegisters(s[p].registry.children, x);
    forall k {:trigger q[k]} | 0 <= k < |q| && InboxTied(s, y, q) ensures MessageTied(t, y, q[k], q[k + 1..]) {
    }
    forall d | Open(s, y) && t[y].Supervises(d) ensures Lifeline(t, y, d, t[y].inbox) {
      assert t[y].registry.children.Registered(d);
      assert d == x || s[y].Supervises(d);
    }
  }

  lemma SpawnDoomed(s: System, p: Pid, x: Pid)
    requires Tied(s) && Doomed(s) && Open(s, p) && x !in s && p < x
    ensures Doomed(Spawn(s, p, x))
  {
    var t := Spawn(s, p, x);
    forall y | Open(t, y) ensures CellDoomed(t, y) {
      if y != x {
        assert CellDoomed(s, y) && CellTied(s, y);
        forall d | d in Dying(t[y]) ensures Facing(t, d) {
          assert d in Dying(s[y]) && HasChild(s[y].registry.children.c, d);
          assert s[y].Supervises(d);
        }
      }
    }
  }

  // ---------- runs ----------

  lemma OnMessageKeeps(s: System, p: Pid, h: Hooks)
    requires Tied(s) && Open(s, p) && s[p].inbox != []
    ensures var t := OnMessage(s, p, s[p].inbox[0], h);
            Tied(t) && (Doomed(s) && !(s[p].inbox[0].Recreate? && Abandons(s, p, h)) ==> Doomed(t))
  {
    match s[p].inbox[0] {
      case Stop => OnStopKeeps(s, p);
      case StopChild(child) => OnStopChildKeeps(s, p, child);
      case Recreate(cause) => OnRecreateTied(s, p, cause, h);
      case Failure(child, cause) => OnFailureKeeps(s, p, child, cause, h);
      case DeathWatchNotification(dead) => OnNotificationKeeps(s, p, dead, h);
      case _ => PlainMessageKeeps(s, p, h);
    }
  }

  lemma PlainMessageKeeps(s: System, p: Pid, h: Hooks)
    requires Open(s, p) && s[p].inbox != []
    requires var m := s[p].inbox[0];
             m.Suspend? || m.Resume? || m.Kill? || m.Create? || m.WatchFrom? || m.UnwatchFrom?
    ensures Keeps(s, OnMessage(s, p, s[p].inbox[0], h))
  {
    var t := PopHead(s, p);
    PopKeeps(s, p);
    match s[p].inbox[0] {
      case Suspend =>
        var c := t[p].(suspends := s[p].suspends + 1);
        assert t[p := c] == s[p := c];
        WaveKeeps(s, t, p, c, Suspend);
      case Resume =>
        var left := if s[p].suspends == 0 then 0 else s[p].suspends - 1;
        var c := t[p].(suspends := left, failed := NotFailed);
        assert t[p := c] == s[p := c];
        WaveKeeps(s, t, p, c, Resume);
      case Kill =>
        ReportKeepsTies(t, p, KILLED);
        KeepsTrans(s, t, ReportFailure(t, p, KILLED));
      case Create =>
        ReportKeepsTies(t, p, h.error);
        KeepsTrans(s, t, ReportFailure(t, p, h.error));
      case WatchFrom(w) => WatchersKeep(s, t, p, WithWatch(s[p].watchers, Watch(w, User)));
      case UnwatchFrom(w) => WatchersKeep(s, t, p, Retained(s[p].watchers, w, Some(User)));
    }
  }

  lemma WaveKeeps(s: System, t: System, p: Pid, c: Cell, m: SysMsg)
    requires Keeps(s, t) && Open(t, p) && Neutral(m) && c == t[p].(suspends := c.suspends, failed := c.failed)
    ensures Keeps(s, SendEach(t[p := c], t[p].Children(), m))
  {
    LocalKeeps(t, p, c);
    SendEachKeeps(t[p := c], t[p].Children(), m);
  }

  lemma WatchersKeep(s: System, t: System, p: Pid, watchers: seq<Watch>)
    requires Keeps(s, t) && Open(t, p)
    requires forall q :: Watch(q, Supervision) in t[p].watchers ==> Watch(q, Supervision) in watchers
    ensures Keeps(s, WithWatchers(t, p, watchers))
  {
    LocalKeeps(t, p, t[p].(watchers := watchers));
  }

  /** Nobody outside forges a report, or the death of an actor that lives. */
  ghost predicate Unforged(s: System, m: Move) {
    m.External? ==> !m.msg.Failure? && (m.msg.DeathWatchNotification? ==> m.msg.pid in s && s[m.msg.pid].stopped)
  }

  /** No Recreate overrides a stop that somebody waits for. */
  ghost predicate RespectsStops(s: System, m: Move)
    requires Enabled(s, m)
  {
    m.Handle? && s[m.pid].inbox[0].Recreate? ==> !Abandons(s, m.pid, m.hooks)
  }

  lemma ExternalNotification(s: System, p: Pid, d: Pid)
    requires Tied(s) && Open(s, p) && d in s && s[d].stopped
    ensures Tied(Send(s, p, DeathWatchNotification(d)))
  {
    var m := DeathWatchNotification(d);
    var t, q := Send(s, p, m), s[p].inbox;
    forall x | x in t ensures CellTied(t, x) {
      assert CellTied(s, x);
      if x == p {
        TerminateInboxOne(s, p, d);
        forall y | t[p].Supervises(y) ensures Lifeline(t, p, y, t[p].inbox) {
          assert s[p].Supervises(y);
          PrefixIn(q, t[p].inbox, DeathWatchNotification(y));
        }
      } else {
        UntouchedInbox(s, p, m, x);
      }
    }
  }

  lemma TerminateInboxOne(s: System, p: Pid, d: Pid)
    requires Open(s, p) && InboxTied(s, p, s[p].inbox) && d in s && s[d].stopped
    ensures InboxTied(Send(s, p, DeathWatchNotification(d)), p, s[p].inbox + [DeathWatchNotification(d)])
  {
    var m := DeathWatchNotification(d);
    var t, q, r := Send(s, p, m), s[p].inbox, s[p].inbox + [m];
    forall k {:trigger r[k]} | 0 <= k < |r| ensures MessageTied(t, p, r[k], r[k + 1..]) {
      if k < |q| {
        assert r[k] == q[k] && r[k + 1..] == q[k + 1..] + [m];
        assert MessageTied(s, p, q[k], q[k + 1..]);
        MessageKept(s, t, p, q[k], q[k + 1..], [m]);
        assert MessageTied(t, p, q[k], q[k + 1..] + [m]);
      }
    }
  }

  lemma MoveKeepsTies(s: System, m: Move)
    requires Tied(s) && Enabled(s, m) && Unforged(s, m)
    ensures Tied(Moved(s, m)) && (Doomed(s) && RespectsStops(s, m) ==> Doomed(Moved(s, m)))
  {
    match m {
      case Report(p, cause) => ReportKeepsTies(s, p, cause);
      case SpawnChild(p, x) =>
        SpawnTied(s, p, x);
        if Doomed(s) {
          SpawnDoomed(s, p, x);
        }
      case External(p, msg) =>
        if msg.DeathWatchNotification? {
          ExternalNotification(s, p, msg.pid);
          SendReportSteady(s, p, msg);
          SteadyKeeps(s, Send(s, p, msg));
        } else {
          SendKeeps(s, p, msg);
        }
      case Handle(p, h) => OnMessageKeeps(s, p, h);
    }
  }

  /** A move breaks the promise that everybody marked to die will stop exactly when it abandons somebody. */
  lemma MoveExact(s: System, m: Move)
    requires Tied(s) && Doomed(s) && Enabled(s, m) && Unforged(s, m)
    ensures Doomed(Moved(s, m)) <==> RespectsStops(s, m)
  {
    MoveKeepsTies(s, m);
    if m.Handle? && s[m.pid].inbox[0].Recreate? {
      OnRecreateExact(s, m.pid, s[m.pid].inbox[0].cause, m.hooks);
    }
  }

  ghost predicate UnforgedRun(states: seq<System>, moves: seq<Move>) {
    IsHistory(states, moves) && forall i :: 0 <= i < |moves| ==> Unforged(states[i], moves[i])
  }

  /** No Recreate handled before state `i` has overridden a stop that somebody waited for. */
  ghost predicate StopsRespected(states: seq<System>, moves: seq<Move>, i: nat) {
    forall k {:trigger RespectsAt(states, moves, k)} :: 0 <= k < i ==> RespectsAt(states, moves, k)
  }

  ghost predicate RespectsAt(states: seq<System>, moves: seq<Move>, k: nat) {
    Happens(states, moves, k) && RespectsStops(states[k], moves[k])
  }

  lemma {:induction false} RunTied(states: seq<System>, moves: seq<Move>, i: nat)
    requires UnforgedRun(states, moves) && i < |states|
    ensures Tied(states[i])
    ensures StopsRespected(states, moves, i) ==> Doomed(states[i])
  {
    if i == 0 {
      assert CellTied(ROOT, 0) && CellDoomed(ROOT, 0);
    } else {
      RunTied(states, moves, i - 1);
      assert Happens(states, moves, i - 1);
      MoveKeepsTies(states[i - 1], moves[i - 1]);
      assert StopsRespected(states, moves, i) ==> RespectsAt(states, moves, i - 1);
    }
  }

  /**
   Over every run without forged messages: everybody marked to die has its Stop to come or is
   stopping, in every state up to `i`, exactly when no move before `i` abandons a waiting actor.
   */
  lemma {:induction false} PromiseKeptExactly(states: seq<System>, moves: seq<Move>, i: nat)
    requires UnforgedRun(states, moves) && i < |states|
    ensures (forall k :: 0 <= k <= i ==> Doomed(states[k])) <==> StopsRespected(states, moves, i)
  {
    RunTied(states, moves, i);
    if i > 0 {
      PromiseKeptExactly(states, moves, i - 1);
      RunTied(states, moves, i - 1);
      assert Happens(states, moves, i - 1);
      PromiseNext(states, moves, i - 1);
    }
  }

  lemma PromiseNext(states: seq<System>, moves: seq<Move>, k: nat)
    requires UnforgedRun(states, moves) && k < |moves| && Happens(states, moves, k) && Tied(states[k])
    ensures Doomed(states[k]) ==> (Doomed(states[k + 1]) <==> RespectsAt(states, moves, k))
  {
    if Doomed(states[k]) {
      MoveExact(states[k], moves[k]);
    }
  }

  /**
   In every run without forged messages, the registry of an open actor is valid and all its
   children are under supervision watch, and each of them either lives and has the
   actor to notify, or its notification is already in the inbox.
   */
  lemma DeathReachesParent(states: seq<System>, moves: seq<Move>, i: nat, p: Pid)
    requires UnforgedRun(states, moves) && i < |states| && Open(states[i], p)
    ensures states[i][p].registry.children.Valid() && states[i][p].registry.Supervised()
    ensures forall d :: states[i][p].Supervises(d) ==>
              if Open(states[i], d) then Watch(p, Supervision) in states[i][d].watchers
              else DeathWatchNotification(d) in states[i][p].inbox
  {
    RunTied(states, moves, i);
    var s := states[i];
    assert CellTied(s, p);
    forall d | s[p].registry.children.Registered(d) ensures Watch(d, Supervision) in s[p].registry.watching {
      assert s[p].Supervises(d);
    }
    forall d | s[p].Supervises(d) && Open(s, d) ensures Watch(p, Supervision) in s[d].watchers {
      assert CellTied(s, d);
    }
  }

  /** `x` is `p` or comes from it. */
  ghost predicate Under(s: System, p: Pid, x: Pid)
    decreases x
  {
    x == p || (x in s && s[x].parent.Some? && s[x].parent.value < x && Under(s, p, s[x].parent.value))
  }

  lemma {:induction false} UnderChild(s: System, p: Pid, d: Pid, x: Pid)
    requires IsChild(s, p, d) && p < d && Under(s, d, x)
    ensures Under(s, p, x)
    decreases x
  {
    if x != d {
      UnderChild(s, p, d, s[x].parent.value);
    }
  }

  ghost function Younger(s: System, p: Pid): set<Pid> {
    set y | y in s && y > p
  }

  lemma {:induction false} WaitingHasWork(s: System, p: Pid) returns (x: Pid)
    requires Tied(s) && Doomed(s) && Open(s, p) && s[p].registry.children.Terminating?
    ensures Open(s, x) && s[x].inbox != [] && Under(s, p, x)
    decreases Younger(s, p)
  {
    assert CellTied(s, p) && CellDoomed(s, p);
    var d := s[p].registry.children.toDie[0];
    assert d in s[p].registry.children.toDie && HasChild(s[p].registry.children.c, d);
    assert s[p].Supervises(d);
    assert Lifeline(s, p, d, s[p].inbox) && d in Dying(s[p]);
    if !Open(s, d) {
      x := p;
    } else if Stop in s[d].inbox {
      x := d;
      assert CellTied(s, d);
      UnderChild(s, p, d, d);
    } else {
      assert CellTied(s, d) && CellDoomed(s, d);
      assert d in Younger(s, p) && d !in Younger(s, d);
      x := WaitingHasWork(s, d);
      UnderChild(s, p, d, x);
    }
  }

  /**
   No deferred restart or stop is stranded: as long as no Recreate has overridden a stop that
   somebody waited for, an actor that waits for its children always has somebody below
   it, or itself, with a message to handle.
   */
  lemma NeverStranded(states: seq<System>, moves: seq<Move>, i: nat, p: Pid) returns (x: Pid)
    requires UnforgedRun(states, moves) && i < |states| && Open(states[i], p)
    requires states[i][p].registry.children.Terminating?
    requires StopsRespected(states, moves, i)
    ensures Open(states[i], x) && states[i][x].inbox != [] && Under(states[i], p, x)
  {
    RunTied(states, moves, i);
    x := WaitingHasWork(states[i], p);
  }
}
