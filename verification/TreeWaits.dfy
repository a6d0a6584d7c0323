/**
 What a run of the tree does to the registry of one actor is a run of registry events, so
 the completion theorem of a single cell speaks about every actor of every run.
 */
module TreeWaits {
  import opened Options
  import opened ChildRegistry
  import opened DeathWatch
  import opened Supervision
  import opened SuspendCoverage
  import opened TreeWatch

  /** The events in the handling of the first message of `c`. */
  ghost function HandlerEvents(c: Cell, h: Hooks): seq<Event>
    requires c.inbox != []
  {
    match c.inbox[0]
    case Recreate(cause) =>
      if c.failed.Fatal? then []
      else (if h.stopsChildren then [StopChildren] else []) + (if h.preRestart then [Restart(cause)] else [])
    case Failure(child, _) =>
      var a := c.registry.children;
      var stops := a.Terminated? || h.directive.StopThem?;
      [ChildFailed(child, h.stats, if stops then Affected(a, child, h) else [])]
    case Stop => [StopAll]
    case StopChild(d) => [StopOne(d)]
    case DeathWatchNotification(d) => [Notification(d)]
    case _ => []
  }

  /** Handling its first message ends the cell. */
  ghost predicate Ends(c: Cell)
    requires c.inbox != []
  {
    match c.inbox[0]
    case Stop => !Stopping(c) && c.Children() == []
    case DeathWatchNotification(d) => Notified(c.registry, d).1 == Some(Termination)
    case _ => false
  }

  ghost function EventsAt(s: System, m: Move, p: Pid): seq<Event>
    requires Enabled(s, m)
  {
    match m
    case SpawnChild(q, x) => if q == p then [ChildSpawned(x)] else []
    case Handle(q, h) =>
      if q == p then HandlerEvents(s[q], h)
      else if Ends(s[q]) && s[q].parent == Some(p) then [ChildLeft(q)] else []
    case _ => []
  }

  lemma AfterNone(r: Registry)
    ensures After(r, []) == r
  {
  }

  lemma AfterOne(r: Registry, e: Event)
    ensures After(r, [e]) == Step(r, e).0
  {
    assert [e][..0] == [];
  }

  lemma AfterTwo(r: Registry, e: Event, f: Event)
    ensures After(r, [e] + [f]) == Step(Step(r, e).0, f).0
  {
    var es := [e] + [f];
    assert es[..1] == [e] && es[1] == f;
    AfterOne(r, e);
  }

  // ---------- the handling cell ----------

  lemma ReportRegistry(s: System, p: Pid, cause: Cause)
    requires Open(s, p)
    ensures SameRegistries(s, ReportFailure(s, p, cause))
  {
    ReportKeepsTies(s, p, cause);
  }

  lemma FinishRegistry(s: System, p: Pid, error: Cause, ok: bool)
    requires Open(s, p)
    ensures SameRegistries(s, FinishRecreate(s, p, error, ok))
  {
    var left := if s[p].suspends == 0 then 0 else s[p].suspends - 1;
    var c := s[p].(deferredCause := None, suspends := left, failed := if ok then NotFailed else Fatal);
    if !ok {
      ReportRegistry(s[p := c], p, error);
    }
  }

  lemma DirectRegistry(s: System, p: Pid, child: Pid, cause: Cause, directive: Directive, affected: seq<Pid>)
    requires Open(s, p)
    ensures SameRegistries(s, Direct(s, p, child, cause, directive, affected))
  {
    match directive {
      case RestartChild =>
        var u := SuspendSiblings(s, affected, child);
        SiblingsRegistries(s, affected, child);
        SiblingsHarmless(s, affected, child);
        SendEachRegistries(u, affected, Recreate(cause));
        SendEachHarmless(u, affected, Recreate(cause));
        var t := SendEach(u, affected, Recreate(cause));
        assert HarmlessAt(s, u, p) && HarmlessAt(u, t, p);
        ReportRegistry(t, p, cause);
      case StopThem => SendEachRegistries(s, affected, Stop);
      case EscalateUp =>
        var t := SendEach(s, affected, Stop);
        SendEachRegistries(s, affected, Stop);
        SendEachHarmless(s, affected, Stop);
        assert HarmlessAt(s, t, p);
        ReportRegistry(t, p, cause);
      case ResumeChild => SendEachRegistries(s, affected, Resume);
    }
  }

  /** Every registry but that of `p`, and of the parent of `p` when `p` ends, stays. */
  ghost predicate OnlyAt(s: System, t: System, p: Pid, r: Registry) {
    t.Keys == s.Keys && p in s && t[p].registry == r && forall x :: x in s && x != p ==> t[x].registry == s[x].registry
  }

  lemma TerminateRegistries(s: System, p: Pid, x: Pid)
    requires Open(s, p) && x in s && s[p].parent != Some(p)
    ensures FinishTerminate(s, p)[x].registry
            == if s[p].parent == Some(x) then Unregistered(s[x].registry, p) else s[x].registry
  {
    if x != p {
      TerminateReaches(s, p, x);
    } else {
      NotifyReaches(s[p := s[p].(stopped := true, watchers := [])], s[p].watchers, p, p);
    }
  }

  lemma StopAllRegistries(s: System, p: Pid)
    requires Tied(s) && Open(s, p)
    ensures OnlyAt(s, StopAllChildren(s, p), p, ChildrenStopped(s[p].registry))
  {
    SendEachRegistries(s[p := s[p].(registry := ChildrenStopped(s[p].registry))], s[p].Children(), Stop);
  }

  /** The second half of a restart sets the reason. */
  lemma RestartRegistry(s: System, p: Pid, cause: Cause, h: Hooks)
    requires Open(s, p)
    ensures var (children, deferred) := SetReason(s[p].registry.children, Recreation(cause));
            var c := s[p].(deferredCause := Some(cause), registry := s[p].registry.(children := children));
            var t := if deferred then s[p := c] else FinishRecreate(s[p := c], p, h.error, h.postRestart);
            OnlyAt(s, t, p, Step(s[p].registry, Restart(cause)).0)
  {
    var (children, deferred) := SetReason(s[p].registry.children, Recreation(cause));
    var c := s[p].(deferredCause := Some(cause), registry := s[p].registry.(children := children));
    if !deferred {
      FinishRegistry(s[p := c], p, h.error, h.postRestart);
    }
  }

  lemma RestartEvents(r: Registry, cause: Cause, stops: bool, sets: bool)
    ensures var es := (if stops then [StopChildren] else []) + (if sets then [Restart(cause)] else []);
            var u := if stops then ChildrenStopped(r) else r;
            After(r, es) == if sets then Step(u, Restart(cause)).0 else u
  {
    AfterNone(r);
    AfterOne(r, StopChildren);
    AfterOne(r, Restart(cause));
    AfterTwo(r, StopChildren, Restart(cause));
    assert [StopChildren] + [] == [StopChildren] && [] + [Restart(cause)] == [Restart(cause)];
  }

  lemma RecreateRegistry(s: System, p: Pid, cause: Cause, h: Hooks)
    requires Tied(s) && Open(s, p) && s[p].inbox != [] && s[p].inbox[0] == Recreate(cause)
    ensures OnlyAt(s, OnRecreate(s, p, cause, h), p, After(s[p].registry, HandlerEvents(s[p], h)))
  {
    var r := s[p].registry;
    if s[p].failed.Fatal? {
      AfterNone(r);
    } else {
      RestartEvents(r, cause, h.stopsChildren, h.preRestart);
      StopAllRegistries(s, p);
      StopAllKeeps(s, p);
      var t := PopHead(if h.stopsChildren then StopAllChildren(s, p) else s, p);
      assert OnlyAt(s, t, p, if h.stopsChildren then ChildrenStopped(r) else r);
      RestartRegistry(t, p, cause, h);
    }
  }

  lemma FailureRegistry(s: System, p: Pid, child: Pid, cause: Cause, h: Hooks)
    requires Open(s, p) && s[p].inbox != [] && s[p].inbox[0] == Failure(child, cause)
    ensures OnlyAt(s, OnFailure(s, p, child, cause, h), p, After(s[p].registry, HandlerEvents(s[p], h)))
  {
    var children := s[p].registry.children;
    var directive := if children.Terminated? then StopThem else h.directive;
    var affected := Affected(children, child, h);
    var next := ChildrenAfterFailure(children, child, affected, directive, h.stats);
    var r := s[p].registry.(children := next);
    AfterOne(s[p].registry, HandlerEvents(s[p], h)[0]);
    assert After(s[p].registry, HandlerEvents(s[p], h)) == r;
    AnswerRegistry(s[p := s[p].(registry := r)], p, child, cause, h, directive, affected);
  }

  lemma AnswerRegistry(s: System, p: Pid, child: Pid, cause: Cause, h: Hooks, directive: Directive, affected: seq<Pid>)
    requires Open(s, p) && s[p].inbox != []
    ensures var u := PopHead(if h.onChildFailed then s else ReportFailure(s, p, h.error), p);
            p in u && SameRegistries(s, Direct(u, p, child, cause, directive, affected))
  {
    if !h.onChildFailed {
      ReportRegistry(s, p, h.error);
      ReportHead(s, p, h.error);
    }
    DirectRegistry(PopHead(if h.onChildFailed then s else ReportFailure(s, p, h.error), p), p, child, cause, directive, affected);
  }

  lemma NoChildrenNoWait(a: Container)
    requires a.Valid() && a.Children() == []
    ensures !a.Terminating?
  {
    if a.Terminating? {
      assert a.toDie[0] in a.toDie && HasChild(a.c, a.toDie[0]);
      ChildrenListed(a, a.toDie[0]);
    }
  }

  lemma StopRegistry(s: System, p: Pid, x: Pid)
    requires Tied(s) && Open(s, p) && s[p].inbox != [] && s[p].inbox[0] == Stop && x in s
    ensures x in OnStop(s, p) && OnStop(s, p)[x].registry ==
            if x == p then After(s[p].registry, [StopAll])
            else if Ends(s[p]) && s[p].parent == Some(x) then Unregistered(s[x].registry, p) else s[x].registry
  {
    var t, a, pids := PopHead(s, p), s[p].registry.children, s[p].Children();
    AfterOne(s[p].registry, StopAll);
    assert CellTied(s, p);
    if !Stopping(s[p]) {
      if pids == [] {
        TerminateRegistries(t, p, x);
        NoChildrenNoWait(a);
      } else {
        var marked := SetReason(MarkAll(a, pids), Termination).0;
        SendEachRegistries(t[p := t[p].(registry := t[p].registry.(children := marked), suspends := t[p].suspends + 1)], pids, Stop);
      }
    }
  }

  lemma NotificationRegistry(s: System, p: Pid, dead: Pid, h: Hooks, x: Pid)
    requires Tied(s) && Open(s, p) && s[p].inbox != [] && s[p].inbox[0] == DeathWatchNotification(dead) && x in s
    ensures x in OnNotification(s, p, dead, h) && OnNotification(s, p, dead, h)[x].registry ==
            if x == p then After(s[p].registry, [Notification(dead)])
            else if Ends(s[p]) && s[p].parent == Some(x) then Unregistered(s[x].registry, p) else s[x].registry
  {
    var (r, change) := Notified(s[p].registry, dead);
    var c := s[p].(registry := r, inbox := s[p].inbox[1..]);
    assert PopHead(s[p := s[p].(registry := r)], p) == s[p := c];
    AfterOne(s[p].registry, Notification(dead));
    assert CellTied(s, p);
    match change {
      case Some(Recreation(_)) => FinishRegistry(s[p := c], p, h.error, h.postRestart);
      case Some(Termination) => TerminateRegistries(s[p := c], p, x);
      case _ =>
    }
  }

  lemma WaveRegistry(s: System, p: Pid, h: Hooks)
    requires Open(s, p) && s[p].inbox != [] && HandlerEvents(s[p], h) == [] && !s[p].inbox[0].Recreate?
    ensures SameRegistries(s, OnMessage(s, p, s[p].inbox[0], h))
  {
    var t := PopHead(s, p);
    match s[p].inbox[0] {
      case Suspend =>
        SendEachRegistries(s[p := s[p].(suspends := s[p].suspends + 1, inbox := s[p].inbox[1..])], s[p].Children(), Suspend);
      case Resume =>
        var left := if s[p].suspends == 0 then 0 else s[p].suspends - 1;
        SendEachRegistries(s[p := s[p].(suspends := left, failed := NotFailed, inbox := s[p].inbox[1..])], s[p].Children(), Resume);
      case Kill => ReportRegistry(t, p, KILLED);
      case Create => ReportRegistry(t, p, h.error);
      case _ =>
    }
  }

  // ---------- one move ----------

  /** What a move does to a registry are its events at that actor. */
  lemma MoveProjects(s: System, m: Move, p: Pid)
    requires Tied(s) && Enabled(s, m) && p in s
    ensures p in Moved(s, m) && Moved(s, m)[p].registry == After(s[p].registry, EventsAt(s, m, p))
  {
    AfterNone(s[p].registry);
    match m {
      case Report(q, cause) => ReportRegistry(s, q, cause);
      case SpawnChild(q, x) => AfterOne(s[p].registry, ChildSpawned(x));
      case External(_, _) =>
      case Handle(q, h) => HandleProjects(s, q, h, p);
    }
  }

  lemma HandleProjects(s: System, q: Pid, h: Hooks, p: Pid)
    requires Tied(s) && Enabled(s, Handle(q, h)) && p in s
    ensures p in Moved(s, Handle(q, h))
    ensures Moved(s, Handle(q, h))[p].registry == After(s[p].registry, EventsAt(s, Handle(q, h), p))
  {
    AfterNone(s[p].registry);
    AfterOne(s[p].registry, ChildLeft(q));
    match s[q].inbox[0] {
      case Recreate(cause) => RecreateRegistry(s, q, cause, h);
      case Failure(child, cause) => FailureRegistry(s, q, child, cause, h);
      case Stop => StopRegistry(s, q, p);
      case DeathWatchNotification(d) => NotificationRegistry(s, q, d, h, p);
      case StopChild(d) => AfterOne(s[q].registry, StopOne(d));
      case _ => WaveRegistry(s, q, h);
    }
  }

  lemma MoveGenuine(s: System, m: Move, p: Pid)
    requires Tied(s) && Enabled(s, m) && Open(s, p)
    ensures GenuineRun(s[p].registry, EventsAt(s, m, p))
  {
    var r, es := s[p].registry, EventsAt(s, m, p);
    assert CellTied(s, p);
    forall d | r.children.Registered(d) ensures Watch(d, Supervision) in r.watching {
      assert s[p].Supervises(d);
    }
    if es != [] && es[0].ChildFailed? {
      InboxPop(s, p, s[p].inbox);
    }
    GenuineShort(r, es);
  }

  lemma GenuineShort(r: Registry, es: seq<Event>)
    requires r.children.Valid() && r.Supervised() && |es| <= 2
    requires es != [] ==> Genuine(r, es[0])
    requires |es| == 2 ==> !es[1].ChildFailed?
    ensures GenuineRun(r, es)
  {
    if es != [] {
      assert es[..1][..0] == [] && es[..1][0] == es[0];
      assert GenuineRun(r, es[..1][..0]);
      assert GenuineRun(r, es[..1]);
      assert |es| == 1 ==> es[..1] == es;
    }
  }

  // ---------- runs ----------

  lemma {:induction false} AfterAppend(r: Registry, a: seq<Event>, b: seq<Event>)
    ensures After(r, a + b) == After(After(r, a), b)
  {
    if b == [] {
      assert a + b == a;
    } else {
      AfterAppend(r, a, b[..|b| - 1]);
      assert (a + b)[..|a + b| - 1] == a + b[..|b| - 1];
    }
  }

  lemma {:induction false} GenuineAppend(r: Registry, a: seq<Event>, b: seq<Event>)
    requires GenuineRun(r, a) && GenuineRun(After(r, a), b)
    ensures GenuineRun(r, a + b)
  {
    if b == [] {
      assert a + b == a;
    } else {
      var front := b[..|b| - 1];
      GenuineAppend(r, a, front);
      AfterAppend(r, a, front);
      assert (a + b)[..|a + b| - 1] == a + front;
    }
  }

  function Flatten(ess: seq<seq<Event>>): seq<Event> {
    if ess == [] then [] else Flatten(ess[..|ess| - 1]) + ess[|ess| - 1]
  }

  /** Pieces of genuine runs, each going on where the one before ended, make one genuine run. */
  ghost predicate Chained(rs: seq<Registry>, ess: seq<seq<Event>>) {
    && |rs| == |ess| + 1
    && forall k {:trigger Link(rs, ess, k)} :: 0 <= k < |ess| ==> Link(rs, ess, k)
  }

  ghost predicate Link(rs: seq<Registry>, ess: seq<seq<Event>>, k: nat)
    requires k < |ess| && k + 1 < |rs|
  {
    GenuineRun(rs[k], ess[k]) && rs[k + 1] == After(rs[k], ess[k])
  }

  lemma {:induction false} ChainRuns(rs: seq<Registry>, ess: seq<seq<Event>>)
    requires Chained(rs, ess) && rs[0].children.Valid() && rs[0].Supervised()
    ensures GenuineRun(rs[0], Flatten(ess)) && rs[|ess|] == After(rs[0], Flatten(ess))
  {
    if ess == [] {
      AfterNone(rs[0]);
    } else {
      var n := |ess| - 1;
      var qs, front := rs[..n + 1], ess[..n];
      forall k | 0 <= k < n ensures Link(qs, front, k) {
        assert Link(rs, ess, k);
      }
      ChainRuns(qs, front);
      assert Link(rs, ess, n);
      GenuineAppend(rs[0], Flatten(ess[..n]), ess[n]);
      AfterAppend(rs[0], Flatten(ess[..n]), ess[n]);
    }
  }

  ghost predicate OpenThrough(states: seq<System>, p: Pid, i: nat, j: nat) {
    i <= j < |states| && forall k :: i <= k <= j ==> Open(states[k], p)
  }

  /** The events at `p` of each move from `i` to `j`. */
  ghost function MoveEvents(states: seq<System>, moves: seq<Move>, p: Pid, i: nat, j: nat): seq<seq<Event>>
    requires IsHistory(states, moves) && i <= j <= |moves|
  {
    seq(j - i, k requires 0 <= k < j - i => assert Happens(states, moves, i + k); EventsAt(states[i + k], moves[i + k], p))
  }

  ghost function EventsBetween(states: seq<System>, moves: seq<Move>, p: Pid, i: nat, j: nat): seq<Event>
    requires IsHistory(states, moves) && i <= j <= |moves|
  {
    Flatten(MoveEvents(states, moves, p, i, j))
  }

  ghost function Registries(states: seq<System>, p: Pid, i: nat, j: nat): seq<Registry>
    requires OpenThrough(states, p, i, j)
  {
    seq(j - i + 1, k requires 0 <= k <= j - i => assert Open(states[i + k], p); states[i + k][p].registry)
  }

  lemma MoveLinks(states: seq<System>, moves: seq<Move>, p: Pid, k: nat)
    requires UnforgedRun(states, moves) && k < |moves| && Open(states[k], p)
    ensures Enabled(states[k], moves[k]) && p in states[k + 1]
    ensures GenuineRun(states[k][p].registry, EventsAt(states[k], moves[k], p))
    ensures states[k + 1][p].registry == After(states[k][p].registry, EventsAt(states[k], moves[k], p))
  {
    RunTied(states, moves, k);
    assert Happens(states, moves, k);
    MoveProjects(states[k], moves[k], p);
    MoveGenuine(states[k], moves[k], p);
  }

  lemma LinkAt(states: seq<System>, moves: seq<Move>, p: Pid, i: nat, j: nat, k: nat)
    requires UnforgedRun(states, moves) && i <= j <= |moves| && OpenThrough(states, p, i, j) && k < j - i
    ensures Link(Registries(states, p, i, j), MoveEvents(states, moves, p, i, j), k)
  {
    var rs, ess := Registries(states, p, i, j), MoveEvents(states, moves, p, i, j);
    assert Open(states[i + k], p) && Open(states[i + (k + 1)], p);
    MoveLinks(states, moves, p, i + k);
    assert rs[k] == states[i + k][p].registry && rs[k + 1] == states[i + (k + 1)][p].registry;
    assert ess[k] == EventsAt(states[i + k], moves[i + k], p);
  }

  /** The registry of an actor that stays open follows its events, which are those of a genuine run. */
  lemma RunProjects(states: seq<System>, moves: seq<Move>, p: Pid, i: nat, j: nat)
    requires UnforgedRun(states, moves) && i <= j <= |moves| && OpenThrough(states, p, i, j)
    ensures Open(states[i], p) && Open(states[j], p)
    ensures GenuineRun(states[i][p].registry, EventsBetween(states, moves, p, i, j))
    ensures states[j][p].registry == After(states[i][p].registry, EventsBetween(states, moves, p, i, j))
  {
    var rs, ess := Registries(states, p, i, j), MoveEvents(states, moves, p, i, j);
    assert Open(states[i], p) && Open(states[j], p);
    forall k | 0 <= k < |ess| ensures Link(rs, ess, k) {
      LinkAt(states, moves, p, i, j, k);
    }
    DeathReachesParent(states, moves, i, p);
    ChainRuns(rs, ess);
  }

  /**
   Over any run of the tree: an actor that began to wait and has been owed somebody ever
   since finishes its restart or stop at a notification exactly when that leaves nobody
   owed, for the last reason set.
   */
  lemma TreeWaitCompletes(states: seq<System>, moves: seq<Move>, p: Pid, i: nat, j: nat, d: Pid)
    requires UnforgedRun(states, moves) && i <= j <= |moves| && OpenThrough(states, p, i, j)
    requires Open(states[i], p) && Open(states[j], p) && states[i][p].registry.children.Terminating?
    requires var es := EventsBetween(states, moves, p, i, j); WaitsThrough(states[i][p].registry, es, |es|)
    ensures var r, es := states[i][p].registry, EventsBetween(states, moves, p, i, j);
            Notified(states[j][p].registry, d).1
            == if SomeoneOwed(r, es + [Notification(d)]) then None else Some(LastReason(r.children.reason, es))
  {
    var r, es := states[i][p].registry, EventsBetween(states, moves, p, i, j);
    var fs, n := es + [Notification(d)], |es|;
    RunProjects(states, moves, p, i, j);
    DeathReachesParent(states, moves, i, p);
    DeathReachesParent(states, moves, j, p);
    assert fs[..n] == es && fs[..n + 1] == fs;
    forall k | 0 <= k <= n ensures SomeoneOwed(r, fs[..k]) {
      assert fs[..k] == es[..k];
    }
    GenuineShort(After(r, es), [Notification(d)]);
    GenuineAppend(r, es, [Notification(d)]);
    CompletesExactlyOnce(r, fs, n);
  }
}
