/**
 What an actor that ends leaves behind: its open children have their Stop to come or are
 stopping, unless one was spawned while the parent was stopping.
 */
module Orphans {
  import opened Options
  import opened ChildRegistry
  import opened DeathWatch
  import opened Supervision
  import opened SuspendCoverage
  import opened TreeWatch

  /** The parent is open, not stopping, and has the child in its registry. */
  ghost predicate Fostered(s: System, d: Pid)
    requires d in s
  {
    s[d].parent.Some? && Open(s, s[d].parent.value)
    && !Stopping(s[s[d].parent.value]) && s[s[d].parent.value].Supervises(d)
  }

  ghost predicate CellOwned(s: System, d: Pid)
    requires d in s
  {
    s[d].parent.None? || Facing(s, d) || Fostered(s, d)
  }

  ghost predicate OwnedBut(s: System, but: set<Pid>) {
    forall d {:trigger CellOwned(s, d)} :: Open(s, d) && d !in but ==> CellOwned(s, d)
  }

  ghost predicate Owned(s: System) { OwnedBut(s, {}) }

  // ---------- changes that leave everybody owned ----------

  /** Nobody is let go, begins or ceases to stop, or loses its Stop. */
  ghost predicate Still(s: System, t: System) {
    && t.Keys == s.Keys
    && (forall x {:trigger StillAt(s, t, x)} :: x in s ==> StillAt(s, t, x))
  }

  ghost predicate StillAt(s: System, t: System, x: Pid)
    requires x in s && x in t
  {
    && t[x].parent == s[x].parent && t[x].stopped == s[x].stopped
    && (forall d :: s[x].Supervises(d) ==> t[x].Supervises(d))
    && (Stopping(t[x]) <==> Stopping(s[x])) && (Stop in s[x].inbox ==> Stop in t[x].inbox)
  }

  lemma StillOwned(s: System, t: System, but: set<Pid>)
    requires OwnedBut(s, but) && Still(s, t)
    ensures OwnedBut(t, but)
  {
    forall d | Open(t, d) && d !in but ensures CellOwned(t, d) {
      assert StillAt(s, t, d) && CellOwned(s, d);
      if s[d].parent.Some? && Open(s, s[d].parent.value) {
        assert StillAt(s, t, s[d].parent.value);
      }
    }
  }

  lemma StillTrans(s: System, t: System, u: System)
    requires Still(s, t) && Still(t, u)
    ensures Still(s, u)
  {
    forall x | x in s ensures StillAt(s, u, x) {
      assert StillAt(s, t, x) && StillAt(t, u, x);
    }
  }

  lemma HarmlessStill(s: System, t: System)
    requires Harmless(s, t) && SameRegistries(s, t)
    ensures Still(s, t)
  {
    forall x | x in s ensures StillAt(s, t, x) {
      assert HarmlessAt(s, t, x);
    }
  }

  lemma SendStill(s: System, to: Pid, m: SysMsg)
    ensures Still(s, Send(s, to, m))
  {
    forall x | x in s ensures StillAt(s, Send(s, to, m), x) {
    }
  }

  lemma {:induction false} SendEachStill(s: System, targets: seq<Pid>, m: SysMsg)
    ensures Still(s, SendEach(s, targets, m))
  {
    if targets == [] {
      forall x | x in s ensures StillAt(s, s, x) {
      }
    } else {
      var t := SendEach(s, targets[..|targets| - 1], m);
      SendEachStill(s, targets[..|targets| - 1], m);
      SendStill(t, targets[|targets| - 1], m);
      StillTrans(s, t, SendEach(s, targets, m));
    }
  }

  /** A change of one cell that keeps its children and whether it is stopping. */
  lemma LocalStill(s: System, p: Pid, c: Cell)
    requires p in s && c.parent == s[p].parent && c.stopped == s[p].stopped
    requires forall d :: s[p].Supervises(d) ==> c.Supervises(d)
    requires (Stopping(c) <==> Stopping(s[p])) && (Stop in s[p].inbox ==> Stop in c.inbox)
    ensures Still(s, s[p := c])
  {
    forall x | x in s ensures StillAt(s, s[p := c], x) {
    }
  }

  lemma PopStill(s: System, p: Pid)
    requires p in s && s[p].inbox != [] && s[p].inbox[0] != Stop
    ensures Still(s, PopHead(s, p))
  {
    assert s[p].inbox == [s[p].inbox[0]] + s[p].inbox[1..];
    LocalStill(s, p, s[p].(inbox := s[p].inbox[1..]));
  }

  lemma ReportStill(s: System, p: Pid, cause: Cause)
    requires Open(s, p)
    ensures Still(s, ReportFailure(s, p, cause))
  {
    var failed := if s[p].failed.NotFailed? then FailedBy(p) else s[p].failed;
    var c := s[p].(suspends := s[p].suspends + 1, failed := failed);
    var u := SendEach(s[p := c], s[p].Children(), Suspend);
    LocalStill(s, p, c);
    SendEachStill(s[p := c], s[p].Children(), Suspend);
    StillTrans(s, s[p := c], u);
    if s[p].parent.Some? && Open(s, s[p].parent.value) {
      SendStill(u, s[p].parent.value, Failure(p, cause));
      StillTrans(s, u, Send(u, s[p].parent.value, Failure(p, cause)));
    } else {
      SendStill(u, p, Stop);
      StillTrans(s, u, Send(u, p, Stop));
    }
  }

  lemma FinishStill(s: System, p: Pid, error: Cause, ok: bool)
    requires Open(s, p)
    ensures Still(s, FinishRecreate(s, p, error, ok))
  {
    var left := if s[p].suspends == 0 then 0 else s[p].suspends - 1;
    var c := s[p].(deferredCause := None, suspends := left, failed := if ok then NotFailed else Fatal);
    LocalStill(s, p, c);
    if !ok {
      ReportStill(s[p := c], p, error);
      StillTrans(s, s[p := c], ReportFailure(s[p := c], p, error));
    }
  }

  lemma DirectStill(s: System, p: Pid, child: Pid, cause: Cause, directive: Directive, affected: seq<Pid>)
    requires Open(s, p)
    ensures Still(s, Direct(s, p, child, cause, directive, affected))
  {
    match directive {
      case RestartChild =>
        var u := SuspendSiblings(s, affected, child);
        SiblingsHarmless(s, affected, child);
        SiblingsRegistries(s, affected, child);
        HarmlessStill(s, u);
        SendEachStill(u, affected, Recreate(cause));
        var t := SendEach(u, affected, Recreate(cause));
        StillTrans(s, u, t);
        assert StillAt(s, t, p);
        ReportStill(t, p, cause);
        StillTrans(s, t, ReportFailure(t, p, cause));
      case StopThem => SendEachStill(s, affected, Stop);
      case EscalateUp =>
        var t := SendEach(s, affected, Stop);
        SendEachStill(s, affected, Stop);
        assert StillAt(s, t, p);
        ReportStill(t, p, cause);
        StillTrans(s, t, ReportFailure(t, p, cause));
      case ResumeChild => SendEachStill(s, affected, Resume);
    }
  }

  // ---------- endings ----------

  /** Every open child of `p` faces its end. */
  ghost predicate ChildrenFacing(s: System, p: Pid) {
    forall d :: Open(s, d) && s[d].parent == Some(p) ==> Facing(s, d)
  }

  lemma TerminateOwned(s: System, p: Pid)
    requires Tied(s) && Open(s, p) && OwnedBut(s, {p}) && ChildrenFacing(s, p)
    ensures Owned(FinishTerminate(s, p))
  {
    var t := FinishTerminate(s, p);
    assert CellTied(s, p);
    TerminateCloses(s, p);
    forall d | Open(t, d) ensures CellOwned(t, d) {
      TerminateReaches(s, p, d);
      assert CellOwned(s, d);
      TerminateTiedCell(s, p, d);
      if s[d].parent.Some? && s[d].parent.value != p && Open(s, s[d].parent.value) {
        TerminateReaches(s, p, s[d].parent.value);
        TerminateTiedCell(s, p, s[d].parent.value);
      }
    }
  }

  /** A stopping cell, or one without children, has only children that face their end. */
  lemma OwnedChildrenFace(s: System, p: Pid)
    requires Owned(s) && Open(s, p) && (Stopping(s[p]) || s[p].Children() == [])
    ensures ChildrenFacing(s, p)
  {
    AllListed(s[p].registry.children);
    forall d | Open(s, d) && s[d].parent == Some(p) ensures Facing(s, d) {
      assert CellOwned(s, d);
    }
  }

  /** A change of `p` alone that keeps its open children touches nobody's claim but its own. */
  lemma LocalOwned(s: System, p: Pid, c: Cell)
    requires OwnedBut(s, {p}) && p in s && c.parent == s[p].parent && c.stopped == s[p].stopped
    requires Stopping(s[p]) || forall d :: Open(s, d) && s[p].Supervises(d) ==> c.Supervises(d)
    requires Stopping(c) ==> Stopping(s[p])
    ensures OwnedBut(s[p := c], {p})
  {
    var t := s[p := c];
    forall d | Open(t, d) && d != p ensures CellOwned(t, d) {
      assert CellOwned(s, d);
    }
  }

  lemma OwnedSelf(s: System, p: Pid)
    requires OwnedBut(s, {p}) && (Open(s, p) ==> CellOwned(s, p))
    ensures Owned(s)
  {
    forall d | Open(s, d) ensures CellOwned(s, d) {
    }
  }

  lemma OwnedLess(s: System, but: set<Pid>)
    requires Owned(s)
    ensures OwnedBut(s, but)
  {
    forall d | Open(s, d) ensures CellOwned(s, d) {
    }
  }

  // ---------- the handlers ----------

  lemma BeginsStopping(s: System, p: Pid, c: Cell)
    requires OwnedBut(s, {p}) && Open(s, p) && CellTied(s, p) && c.parent == s[p].parent && c.stopped == s[p].stopped
    requires Stopping(c)
    ensures Owned(SendEach(s[p := c], s[p].Children(), Stop))
  {
    var u, pids := s[p := c], s[p].Children();
    var t := SendEach(u, pids, Stop);
    AllListed(s[p].registry.children);
    ChildrenListed(s[p].registry.children, p);
    SendEachResult(u, pids, Stop);
    forall d | Open(t, d) ensures CellOwned(t, d) {
      assert t[d] == Received(u, d, pids, Stop);
      if d == p {
        NotOwnChild(s, p);
      } else {
        assert CellOwned(s, d);
        if s[d].parent.Some? && s[d].parent.value in u {
          var q := s[d].parent.value;
          assert t[q] == Received(u, q, pids, Stop);
        }
      }
    }
  }

  lemma OnStopOwned(s: System, p: Pid)
    requires Tied(s) && Owned(s) && Open(s, p) && s[p].inbox != [] && s[p].inbox[0] == Stop
    ensures Owned(OnStop(s, p))
  {
    var t := PopHead(s, p);
    PopTied(s, p);
    assert CellTied(t, p) && CellTied(s, p);
    OwnedLess(s, {p});
    LocalOwned(s, p, s[p].(inbox := s[p].inbox[1..]));
    var children, pids := s[p].registry.children, s[p].Children();
    if Stopping(s[p]) {
      OwnedSelf(t, p);
    } else if pids == [] {
      OwnedChildrenFace(s, p);
      TerminateOwned(t, p);
    } else {
      StoppingCell(t, p);
      var marked := SetReason(MarkAll(children, pids), Termination).0;
      BeginsStopping(t, p, t[p].(registry := t[p].registry.(children := marked), suspends := t[p].suspends + 1));
    }
  }

  lemma OnStopChildOwned(s: System, p: Pid, child: Pid)
    requires Owned(s) && Open(s, p) && s[p].inbox != [] && s[p].inbox[0] == StopChild(child)
    ensures Owned(OnStopChild(s, p, child))
  {
    var t, a := PopHead(s, p), s[p].registry.children;
    PopStill(s, p);
    StillOwned(s, t, {});
    if a.Registered(child) && !a.IsTerminating() {
      var c := t[p].(registry := t[p].registry.(children := ShallDie(a, child)));
      LocalStill(t, p, c);
      SendStill(t[p := c], child, Stop);
      StillOwned(t, t[p := c], {});
      StillOwned(t[p := c], Send(t[p := c], child, Stop), {});
    }
  }

  lemma OnNotificationOwned(s: System, p: Pid, dead: Pid, h: Hooks)
    requires Tied(s) && Owned(s) && Open(s, p) && s[p].inbox != [] && s[p].inbox[0] == DeathWatchNotification(dead)
    ensures Owned(OnNotification(s, p, dead, h))
  {
    var (r, change) := Notified(s[p].registry, dead);
    var c := s[p].(registry := r, inbox := s[p].inbox[1..]);
    var t := s[p := c];
    assert PopHead(s[p := s[p].(registry := r)], p) == t;
    NotifiedTied(s, p, dead, c);
    NotifiedCell(s, p, dead);
    OwnedLess(s, {p});
    LocalOwned(s, p, c);
    if change == Some(Termination) {
      OwnedChildrenFace(s, p);
      TerminateOwned(t, p);
    } else {
      assert s[p].inbox == [s[p].inbox[0]] + s[p].inbox[1..];
      assert CellOwned(s, p);
      OwnedSelf(t, p);
      if change.Some? && change.value.Recreation? {
        FinishStill(t, p, h.error, h.postRestart);
        StillOwned(t, FinishRecreate(t, p, h.error, h.postRestart), {});
      }
    }
  }

  /** A notification takes only the dead from the registry, and the cell ends or goes on as it was. */
  lemma NotifiedCell(s: System, p: Pid, dead: Pid)
    requires Tied(s) && Open(s, p) && s[p].inbox != [] && s[p].inbox[0] == DeathWatchNotification(dead)
    ensures !Open(s, dead) && s[p].parent != Some(p)
    ensures var (r, change) := Notified(s[p].registry, dead);
            && (forall d :: s[p].Supervises(d) && d != dead && change != Some(Termination) ==> r.children.Registered(d))
            && (change == Some(Termination) ==> Stopping(s[p]))
            && (change != Some(Termination) ==> (r.children.IsTerminating() <==> Stopping(s[p])))
  {
    var a := s[p].registry.children;
    assert CellTied(s, p);
    InboxPop(s, p, s[p].inbox);
    forall x | a.Registered(x) ensures Watch(x, Supervision) in s[p].registry.watching {
      assert s[p].Supervises(x);
    }
    NotifiedKeeps(s[p].registry, dead);
    RemovalCompletes(a, dead);
    WithoutKeeps(a.Entries(), {dead});
  }

  lemma {:induction false} SentStop(s: System, targets: seq<Pid>, d: Pid)
    requires d in targets && Open(s, d)
    ensures var t := SendEach(s, targets, Stop); Open(t, d) && Stop in t[d].inbox
  {
    var front, last := targets[..|targets| - 1], targets[|targets| - 1];
    var t := SendEach(s, front, Stop);
    assert targets == front + [last];
    SendEachStill(s, front, Stop);
    assert StillAt(s, t, d);
    if d in front {
      SentStop(s, front, d);
    }
  }

  /** Whoever a Stop directive lets go is told to stop. */
  lemma LetGoStopped(s: System, targets: seq<Pid>, but: set<Pid>)
    requires OwnedBut(s, but) && forall d <- but :: d in targets
    ensures Owned(SendEach(s, targets, Stop))
  {
    var t := SendEach(s, targets, Stop);
    SendEachStill(s, targets, Stop);
    StillOwned(s, t, but);
    forall d | Open(t, d) ensures CellOwned(t, d) {
      assert StillAt(s, t, d);
      if d in but {
        SentStop(s, targets, d);
      }
    }
  }

  lemma {:induction false} RemoveEachKeepsOthers(a: Container, ps: seq<Pid>, d: Pid)
    requires (a.Empty? || a.Normal?) && a.Registered(d) && d !in ps
    ensures RemoveEach(a, ps).Registered(d) && RemoveEach(a, ps).Normal?
  {
    if ps != [] {
      var front, last := ps[..|ps| - 1], ps[|ps| - 1];
      assert ps == front + [last];
      RemoveEachKeepsOthers(a, front, d);
      WithoutKeeps(RemoveEach(a, front).Entries(), {last});
    }
  }

  lemma AfterFailureKeepsOthers(a: Container, child: Pid, stats: Stats, removed: seq<Pid>, d: Pid)
    requires a.Valid() && a.Registered(d) && d !in removed
    ensures AfterFailure(a, child, stats, removed).Registered(d)
  {
    InsertKeeps(a.Entries(), child);
    var touched := TouchStats(a, child, stats);
    StatsKeep(AddChild(a, child).Entries(), child, stats);
    assert touched.Registered(d);
    if !touched.InTerminatingVariant() {
      RemoveEachKeepsOthers(touched, removed, d);
    }
  }

  lemma FailureRegistryOwned(s: System, p: Pid, child: Pid, stats: Stats, removed: seq<Pid>)
    requires Owned(s) && Open(s, p) && s[p].registry.children.Valid()
    ensures var next := AfterFailure(s[p].registry.children, child, stats, removed);
            OwnedBut(s[p := s[p].(registry := s[p].registry.(children := next))], PidSet(removed))
  {
    var a := s[p].registry.children;
    var next := AfterFailure(a, child, stats, removed);
    var c := s[p].(registry := s[p].registry.(children := next));
    var t := s[p := c];
    AfterFailureKeeps(a, child, stats, removed);
    forall d | Open(t, d) && d !in PidSet(removed) ensures CellOwned(t, d) {
      assert CellOwned(s, d);
      if s[p].Supervises(d) {
        AfterFailureKeepsOthers(a, child, stats, removed, d);
      }
    }
  }

  lemma OnFailureOwned(s: System, p: Pid, child: Pid, cause: Cause, h: Hooks)
    requires Tied(s) && Owned(s) && Open(s, p) && s[p].inbox != [] && s[p].inbox[0] == Failure(child, cause)
    ensures Owned(OnFailure(s, p, child, cause, h))
  {
    var children := s[p].registry.children;
    var directive := if children.Terminated? then StopThem else h.directive;
    var affected := Affected(children, child, h);
    var removed: seq<Pid> := if directive.StopThem? then affected else [];
    var next := ChildrenAfterFailure(children, child, affected, directive, h.stats);
    var t := s[p := s[p].(registry := s[p].registry.(children := next))];
    assert CellTied(s, p);
    FailureRegistryOwned(s, p, child, h.stats, removed);
    if !h.onChildFailed {
      ReportStill(t, p, h.error);
      ReportHead(t, p, h.error);
      StillOwned(t, ReportFailure(t, p, h.error), PidSet(removed));
    }
    var u := if h.onChildFailed then t else ReportFailure(t, p, h.error);
    PopStill(u, p);
    StillOwned(u, PopHead(u, p), PidSet(removed));
    if directive.StopThem? {
      LetGoStopped(PopHead(u, p), affected, PidSet(removed));
    } else {
      assert PidSet(removed) == {};
      DirectStill(PopHead(u, p), p, child, cause, directive, affected);
      StillOwned(PopHead(u, p), Direct(PopHead(u, p), p, child, cause, directive, affected), {});
    }
  }

  lemma PlainOwned(s: System, p: Pid, h: Hooks)
    requires Owned(s) && Open(s, p) && s[p].inbox != []
    requires var m := s[p].inbox[0];
             m.Suspend? || m.Resume? || m.Kill? || m.Create? || m.WatchFrom? || m.UnwatchFrom?
    ensures Owned(OnMessage(s, p, s[p].inbox[0], h))
  {
    var t := PopHead(s, p);
    PopStill(s, p);
    match s[p].inbox[0] {
      case Suspend => WaveStill(s, p, t[p].(suspends := s[p].suspends + 1), Suspend);
      case Resume =>
        var left := if s[p].suspends == 0 then 0 else s[p].suspends - 1;
        WaveStill(s, p, t[p].(suspends := left, failed := NotFailed), Resume);
      case Kill =>
        ReportStill(t, p, KILLED);
        StillTrans(s, t, ReportFailure(t, p, KILLED));
      case Create =>
        ReportStill(t, p, h.error);
        StillTrans(s, t, ReportFailure(t, p, h.error));
      case WatchFrom(w) =>
        LocalStill(t, p, t[p].(watchers := WithWatch(s[p].watchers, Watch(w, User))));
        StillTrans(s, t, OnMessage(s, p, s[p].inbox[0], h));
      case UnwatchFrom(w) =>
        LocalStill(t, p, t[p].(watchers := Retained(s[p].watchers, w, Some(User))));
        StillTrans(s, t, OnMessage(s, p, s[p].inbox[0], h));
    }
    StillOwned(s, OnMessage(s, p, s[p].inbox[0], h), {});
  }

  lemma WaveStill(s: System, p: Pid, c: Cell, m: SysMsg)
    requires p in s && s[p].inbox != [] && s[p].inbox[0] != Stop
    requires c == s[p].(suspends := c.suspends, failed := c.failed, inbox := s[p].inbox[1..])
    ensures Still(s, SendEach(s[p := c], s[p].Children(), m))
  {
    assert s[p].inbox == [s[p].inbox[0]] + s[p].inbox[1..];
    LocalStill(s, p, c);
    SendEachStill(s[p := c], s[p].Children(), m);
    StillTrans(s, s[p := c], SendEach(s[p := c], s[p].Children(), m));
  }

  // ---------- the two ways to leave somebody behind ----------

  /** A restart takes back a stop of a cell that nobody keeps. */
  ghost predicate TurnsBack(s: System, p: Pid, h: Hooks)
    requires p in s
  {
    && Overrides(s[p], h) && s[p].registry.children.Terminating? && Stop !in s[p].inbox
    && s[p].parent.Some? && !Fostered(s, p)
  }

  lemma BeforeReasonStill(s: System, p: Pid, h: Hooks)
    requires Tied(s) && Open(s, p) && s[p].inbox != [] && s[p].inbox[0].Recreate?
    ensures var t := BeforeReason(s, p, h);
            && Still(s, t) && t[p].parent == s[p].parent && (Fostered(t, p) <==> Fostered(s, p))
            && (t[p].registry.children.Terminating? && Stopping(t[p]) <==> s[p].registry.children.Terminating? && Stopping(s[p]))
            && (Stop in t[p].inbox <==> Stop in s[p].inbox)
  {
    var c := s[p].(registry := ChildrenStopped(s[p].registry));
    var u := if h.stopsChildren then StopAllChildren(s, p) else s;
    assert CellTied(s, p);
    StoppedChildren(s, p);
    StopAllKeeps(s, p);
    MarkAllKeeps(s[p].registry.children, s[p].Children());
    LocalStill(s, p, c);
    SendEachStill(s[p := c], s[p].Children(), Stop);
    StillTrans(s, s[p := c], StopAllChildren(s, p));
    SendEachRegistries(s[p := c], s[p].Children(), Stop);
    PopStill(u, p);
    if h.stopsChildren {
      StillTrans(s, u, PopHead(u, p));
    }
    assert StillAt(s, PopHead(u, p), p);
    assert s[p].inbox == [s[p].inbox[0]] + s[p].inbox[1..];
    if s[p].parent.Some? {
      assert StillAt(s, PopHead(u, p), s[p].parent.value);
    }
  }

  /** The second half of a restart, on a cell that nobody counts on or not. */
  lemma ReasonOwned(s: System, p: Pid, cause: Cause, h: Hooks)
    requires Owned(s) && Open(s, p) && s[p].parent != Some(p)
    ensures var (children, deferred) := SetReason(s[p].registry.children, Recreation(cause));
            var c := s[p].(deferredCause := Some(cause), registry := s[p].registry.(children := children));
            var t := if deferred then s[p := c] else FinishRecreate(s[p := c], p, h.error, h.postRestart);
            var turns := Stopping(s[p]) && deferred && Stop !in s[p].inbox && s[p].parent.Some? && !Fostered(s, p);
            Owned(t) <==> !turns
  {
    var (children, deferred) := SetReason(s[p].registry.children, Recreation(cause));
    var c := s[p].(deferredCause := Some(cause), registry := s[p].registry.(children := children));
    var u := s[p := c];
    OwnedLess(s, {p});
    LocalOwned(s, p, c);
    assert CellOwned(s, p);
    assert Fostered(u, p) <==> Fostered(s, p);
    if deferred {
      if CellOwned(u, p) {
        OwnedSelf(u, p);
      }
    } else {
      OwnedSelf(u, p);
      FinishStill(u, p, h.error, h.postRestart);
      StillOwned(u, FinishRecreate(u, p, h.error, h.postRestart), {});
    }
  }

  lemma OnRecreateOwned(s: System, p: Pid, cause: Cause, h: Hooks)
    requires Tied(s) && Owned(s) && Open(s, p) && s[p].inbox != [] && s[p].inbox[0] == Recreate(cause)
    ensures Owned(OnRecreate(s, p, cause, h)) <==> !TurnsBack(s, p, h)
  {
    assert CellTied(s, p);
    if s[p].failed.Fatal? {
      PopStill(s, p);
      StillOwned(s, PopHead(s, p), {});
    } else {
      var t := BeforeReason(s, p, h);
      BeforeReasonStill(s, p, h);
      BeforeReasonKeeps(s, p, h);
      StillOwned(s, t, {});
      if h.preRestart {
        ReasonOwned(t, p, cause, h);
      }
    }
  }

  lemma SpawnOwned(s: System, p: Pid, x: Pid)
    requires Tied(s) && Owned(s) && Open(s, p) && x !in s && p < x
    ensures Owned(Spawn(s, p, x)) <==> !Stopping(s[p])
  {
    var t := Spawn(s, p, x);
    assert CellTied(s, p);
    InsertKeeps(s[p].registry.children.Entries(), x);
    forall d | Open(t, d) && d != x ensures CellOwned(t, d) {
      assert CellOwned(s, d);
      if s[p].Supervises(d) {
        assert t[p].registry.children.Registered(d);
      }
    }
    if !Stopping(s[p]) {
      assert t[p].registry.children.Registered(x);
      assert CellOwned(t, x);
      OwnedSelf(t, x);
    } else {
      assert !CellOwned(t, x);
    }
  }

  // ---------- runs ----------

  /** The move leaves a child behind that nobody will stop. */
  ghost predicate Orphaning(s: System, m: Move)
    requires Enabled(s, m)
  {
    match m
    case SpawnChild(p, _) => Stopping(s[p])
    case Handle(p, h) => s[p].inbox[0].Recreate? && TurnsBack(s, p, h)
    case _ => false
  }

  /** Every open child is kept by its parent or faces its end, exactly until a move leaves one behind. */
  lemma MoveOwned(s: System, m: Move)
    requires Tied(s) && Owned(s) && Enabled(s, m) && Unforged(s, m)
    ensures Owned(Moved(s, m)) <==> !Orphaning(s, m)
  {
    match m {
      case Report(p, cause) =>
        ReportStill(s, p, cause);
        StillOwned(s, Moved(s, m), {});
      case SpawnChild(p, x) => SpawnOwned(s, p, x);
      case External(p, msg) =>
        SendStill(s, p, msg);
        StillOwned(s, Moved(s, m), {});
      case Handle(p, h) => HandleOwned(s, p, h);
    }
  }

  lemma HandleOwned(s: System, p: Pid, h: Hooks)
    requires Tied(s) && Owned(s) && Open(s, p) && s[p].inbox != []
    ensures Owned(OnMessage(s, p, s[p].inbox[0], h)) <==> !(s[p].inbox[0].Recreate? && TurnsBack(s, p, h))
  {
    match s[p].inbox[0] {
      case Stop => OnStopOwned(s, p);
      case StopChild(child) => OnStopChildOwned(s, p, child);
      case Recreate(cause) => OnRecreateOwned(s, p, cause, h);
      case Failure(child, cause) => OnFailureOwned(s, p, child, cause, h);
      case DeathWatchNotification(dead) => OnNotificationOwned(s, p, dead, h);
      case _ => PlainOwned(s, p, h);
    }
  }

  ghost predicate KeepsAt(states: seq<System>, moves: seq<Move>, k: nat) {
    Happens(states, moves, k) && !Orphaning(states[k], moves[k])
  }

  ghost predicate NoneOrphaned(states: seq<System>, moves: seq<Move>, i: nat) {
    forall k {:trigger KeepsAt(states, moves, k)} :: 0 <= k < i ==> KeepsAt(states, moves, k)
  }

  lemma OwnedNext(states: seq<System>, moves: seq<Move>, k: nat)
    requires UnforgedRun(states, moves) && k < |moves| && Owned(states[k])
    ensures Owned(states[k + 1]) <==> KeepsAt(states, moves, k)
  {
    RunTied(states, moves, k);
    assert Happens(states, moves, k);
    MoveOwned(states[k], moves[k]);
  }

  /** In every unforged run everybody is owned in all states up to `i` exactly when no move before leaves anybody behind. */
  lemma {:induction false} OwnedExactly(states: seq<System>, moves: seq<Move>, i: nat)
    requires UnforgedRun(states, moves) && i < |states|
    ensures (forall k :: 0 <= k <= i ==> Owned(states[k])) <==> NoneOrphaned(states, moves, i)
  {
    if i == 0 {
      assert CellOwned(ROOT, 0);
    } else {
      OwnedExactly(states, moves, i - 1);
      if Owned(states[i - 1]) {
        OwnedNext(states, moves, i - 1);
      }
    }
  }

  /** An actor that has ended leaves only children that have their Stop to come or are stopping. */
  lemma EndedLeavesNobody(states: seq<System>, moves: seq<Move>, i: nat, p: Pid, d: Pid)
    requires UnforgedRun(states, moves) && i < |states| && NoneOrphaned(states, moves, i)
    requires Open(states[i], d) && states[i][d].parent == Some(p) && !Open(states[i], p)
    ensures Facing(states[i], d)
  {
    OwnedExactly(states, moves, i);
    assert CellOwned(states[i], d);
  }

  /**
   In an idle state of a run that neither leaves a child behind nor abandons a waiting actor,
   nobody waits, and every open actor has an open parent: nothing is left of what ended.
   */
  lemma IdleHasNoOrphans(states: seq<System>, moves: seq<Move>, i: nat, d: Pid)
    requires UnforgedRun(states, moves) && i < |states| && NoneOrphaned(states, moves, i) && StopsRespected(states, moves, i)
    requires forall x :: Open(states[i], x) ==> states[i][x].inbox == []
    requires Open(states[i], d)
    ensures !states[i][d].registry.children.Terminating?
    ensures states[i][d].parent.Some? ==> Open(states[i], states[i][d].parent.value)
  {
    var s := states[i];
    RunTied(states, moves, i);
    assert CellDoomed(s, d);
    if s[d].registry.children.Terminating? {
      var x := WaitingHasWork(s, d);
    }
    if s[d].parent.Some? && !Open(s, s[d].parent.value) {
      EndedLeavesNobody(states, moves, i, s[d].parent.value, d);
    }
  }
}
