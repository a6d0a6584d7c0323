/**
 What a restart does to the children it does not stop: they stay registered and suspended,
 whether it finishes at once or at the last notification.
 */
module RestartOutcome {
  import opened Options
  import opened ChildRegistry
  import opened DeathWatch
  import opened Supervision
  import opened SuspendCoverage
  import opened TreeWatch

  /** A child that the cell neither waits for nor lets go. */
  ghost predicate Survives(c: Cell, d: Pid) {
    c.Supervises(d) && d !in Dying(c)
  }

  /** The Recreate begins a restart at all. */
  predicate Begins(c: Cell, h: Hooks) { !c.failed.Fatal? && h.preRestart }

  lemma StoppedSurviveNot(s: System, p: Pid, d: Pid)
    requires Open(s, p) && CellTied(s, p)
    ensures !Survives(s[p].(registry := ChildrenStopped(s[p].registry)), d)
  {
    var a, pids := s[p].registry.children, s[p].Children();
    AllListed(a);
    MarkAllKeeps(a, pids);
    if a.Registered(d) {
      MarkAllDying(a, pids, d);
    }
  }

  /** Setting the reason marks nobody and lets nobody go. */
  lemma ReasonKeepsSurvivors(c: Cell, cause: Cause, d: Pid)
    ensures var r := c.registry.(children := SetReason(c.registry.children, Recreation(cause)).0);
            Survives(c.(deferredCause := Some(cause), registry := r), d) <==> Survives(c, d)
  {
  }

  lemma FinishKeepsRegistry(s: System, p: Pid, error: Cause, ok: bool)
    requires Open(s, p)
    ensures FinishRecreate(s, p, error, ok)[p].registry == s[p].registry
  {
    var left := if s[p].suspends == 0 then 0 else s[p].suspends - 1;
    var c := s[p].(deferredCause := None, suspends := left, failed := if ok then NotFailed else Fatal);
    if !ok {
      ReportKeepsTies(s[p := c], p, error);
    }
  }

  /** The children that survive the handling of a Recreate are exactly those it did not stop. */
  lemma SurvivorsExact(s: System, p: Pid, cause: Cause, h: Hooks, d: Pid)
    requires Tied(s) && Open(s, p) && s[p].inbox != [] && s[p].inbox[0] == Recreate(cause) && Begins(s[p], h)
    requires !s[p].registry.children.Terminated?
    ensures Survives(OnRecreate(s, p, cause, h)[p], d) <==> !h.stopsChildren && Survives(s[p], d)
  {
    assert CellTied(s, p);
    StopAllKeeps(s, p);
    StoppedSurviveNot(s, p, d);
    BeforeReasonKeeps(s, p, h);
    var t := BeforeReason(s, p, h);
    var (children, deferred) := SetReason(t[p].registry.children, Recreation(cause));
    var c := t[p].(deferredCause := Some(cause), registry := t[p].registry.(children := children));
    ReasonKeepsSurvivors(t[p], cause, d);
    if !deferred {
      FinishKeepsRegistry(t[p := c], p, h.error, h.postRestart);
    }
  }

  /** And their cells are not touched: no Resume is on its way to them. */
  lemma SurvivorsUntouched(s: System, p: Pid, cause: Cause, h: Hooks, x: Pid)
    requires Open(s, p) && s[p].inbox != [] && s[p].inbox[0] == Recreate(cause) && Begins(s[p], h) && !h.stopsChildren
    requires (h.postRestart || s[p].registry.children.Terminating?) && x in s && x != p
    ensures OnRecreate(s, p, cause, h)[x] == s[x]
  {
  }

  /**
   The deferred finish, at the last notification: the children registered afterwards are
   exactly the survivors, the cell takes one suspension back, and nobody else is touched.
   */
  lemma DeferredFinish(s: System, p: Pid, dead: Pid, h: Hooks, d: Pid)
    requires Tied(s) && Open(s, p) && s[p].inbox != [] && s[p].inbox[0] == DeathWatchNotification(dead) && h.postRestart
    requires Notified(s[p].registry, dead).1.Some? && Notified(s[p].registry, dead).1.value.Recreation?
    ensures var t := OnNotification(s, p, dead, h);
            && (t[p].Supervises(d) <==> Survives(s[p], d)) && !t[p].registry.children.Terminating?
            && t[p].suspends == (if s[p].suspends == 0 then 0 else s[p].suspends - 1) && t[p].failed == NotFailed
            && forall x :: x in s && x != p ==> t[x] == s[x]
  {
    var r := s[p].registry;
    assert CellTied(s, p);
    forall x | r.children.Registered(x) ensures Watch(x, Supervision) in r.watching {
      assert s[p].Supervises(x);
    }
    NotifiedKeeps(r, dead);
    RemovalCompletes(r.children, dead);
    WithoutKeeps(r.children.Entries(), {dead});
    assert r.children.toDie[0] in r.children.toDie;
  }

  /** The immediate finish: without children to wait for, the cell alone is resumed. */
  lemma ImmediateFinish(s: System, p: Pid, cause: Cause, h: Hooks, d: Pid)
    requires Tied(s) && Open(s, p) && s[p].inbox != [] && s[p].inbox[0] == Recreate(cause) && Begins(s[p], h) && h.postRestart
    requires !s[p].registry.children.InTerminatingVariant() && (h.stopsChildren ==> s[p].Children() == [])
    ensures var t := OnRecreate(s, p, cause, h);
            && (t[p].Supervises(d) <==> Survives(s[p], d)) && !t[p].registry.children.Terminating?
            && t[p].suspends == (if s[p].suspends == 0 then 0 else s[p].suspends - 1) && t[p].failed == NotFailed
            && forall x :: x in s && x != p ==> t[x] == s[x]
  {
    var a, pids := s[p].registry.children, s[p].Children();
    MarkAllKeeps(a, pids);
    if h.stopsChildren {
      var u := s[p := s[p].(registry := ChildrenStopped(s[p].registry))];
      assert SendEach(u, [], Stop) == u;
    }
  }

  /** A Recreate that is ignored, by a fatally failed cell or after a failing `pre_restart`, takes nothing from the counter. */
  lemma IgnoredRecreate(s: System, p: Pid, cause: Cause, h: Hooks)
    requires Tied(s) && Open(s, p) && s[p].inbox != [] && s[p].inbox[0] == Recreate(cause) && !Begins(s[p], h)
    ensures var t := OnRecreate(s, p, cause, h);
            && t[p].suspends == s[p].suspends && t[p].Deferred() == s[p].Deferred() && t[p].failed == s[p].failed
            && Reports(t, p) == Reports(s, p)
  {
    assert CellTied(s, p);
    if !s[p].failed.Fatal? && h.stopsChildren {
      OwnCell(s, p, s[p].(registry := ChildrenStopped(s[p].registry)));
      MarkAllKeeps(s[p].registry.children, s[p].Children());
      if s[p].parent.Some? {
        ParentInbox(s, p);
      }
    }
  }

  /** Stopping its children does not reach the parent. */
  lemma ParentInbox(s: System, p: Pid)
    requires Tied(s) && Open(s, p) && s[p].parent.Some?
    ensures var t := StopAllChildren(s, p);
            t[p].parent == s[p].parent && s[p].parent.value in t && t[s[p].parent.value].inbox == s[s[p].parent.value].inbox
  {
    var q, c := s[p].parent.value, s[p].(registry := ChildrenStopped(s[p].registry));
    assert CellTied(s, p) && CellTied(s, q);
    assert s[p].Supervises(q) ==> Lifeline(s, p, q, s[p].inbox);
    ChildrenListed(s[p].registry.children, q);
    SendEachResult(s[p := c], s[p].Children(), Stop);
    OwnCell(s, p, c);
  }
}
