/**
 The tree of cells as one actor sees it: what a step of the system, with all its loops over
 children and watchers, does to the cell of any one actor.
 */
module LocalView {
  import opened Options
  import opened Lists
  import opened ChildRegistry
  import opened DeathWatch
  import opened Supervision
  import opened SuspendCoverage
  import opened TreeWatch
  import opened TreeWaits

  // ---------- what happens at the actor that moves ----------

  /** The registry of the moving actor afterwards. */
  ghost function RegistryAfter(s: System, m: Move): Registry
    requires Enabled(s, m)
  {
    After(s[m.pid].registry, EventsAt(s, m, m.pid))
  }

  predicate HasOpenParent(s: System, p: Pid)
    requires p in s
  {
    s[p].parent.Some? && Open(s, s[p].parent.value)
  }

  /** The directive in force: a registry that has ended knows no child to decide about. */
  function InForce(c: Cell, h: Hooks): Directive {
    if c.registry.children.Terminated? then StopThem else h.directive
  }

  /** The supervisor cannot settle the failure itself: it escalates, or a child to restart is gone. */
  predicate GivesUp(s: System, p: Pid, child: Pid, h: Hooks)
    requires p in s
  {
    InForce(s[p], h).EscalateUp?
    || (InForce(s[p], h).RestartChild? && exists x <- Affected(s[p].registry.children, child, h) :: !Open(s, x))
  }

  /** A restart comes to its second phase: at once without children to wait for, or at the last notification. */
  ghost predicate Finishes(s: System, p: Pid, h: Hooks)
    requires p in s && s[p].inbox != []
  {
    match s[p].inbox[0]
    case Recreate(_) => Restarts(s[p], h) && !After(s[p].registry, HandlerEvents(s[p], h)).children.Terminating?
    case DeathWatchNotification(d) => Notified(s[p].registry, d).1.Some? && Notified(s[p].registry, d).1.value.Recreation?
    case _ => false
  }

  predicate Restarts(c: Cell, h: Hooks) { !c.failed.Fatal? && h.preRestart }

  /** The failures that the moving actor incurs, in order. */
  ghost function Causes(s: System, m: Move): seq<Cause>
    requires Enabled(s, m)
  {
    match m
    case Report(_, cause) => [cause]
    case Handle(p, h) =>
      (match s[p].inbox[0]
       case Kill => [KILLED]
       case Create => if h.preStart then [] else [h.error]
       case Failure(child, cause) => FailureCauses(s, p, child, cause, h)
       case _ => if Finishes(s, p, h) && !h.postRestart then [h.error] else [])
    case _ => []
  }

  ghost function FailureCauses(s: System, p: Pid, child: Pid, cause: Cause, h: Hooks): seq<Cause>
    requires p in s
  {
    (if h.onChildFailed then [] else [h.error]) + (if GivesUp(s, p, child, h) then [cause] else [])
  }

  // ---------- what an actor gets ----------

  function When(given: bool, mail: seq<SysMsg>): seq<SysMsg> { if given then mail else [] }

  /** A failure of `p` reaches the children as a Suspend, and the parent as a report; without one `p` stops itself. */
  ghost function Upward(s: System, p: Pid, r: Registry, cause: Cause, x: Pid): seq<SysMsg>
    requires p in s
  {
    if r.children.Registered(x) then [Suspend]
    else if HasOpenParent(s, p) then if s[p].parent == Some(x) then [Failure(p, cause)] else []
    else if x == p then [Stop] else []
  }

  function AnswerOf(directive: Directive, cause: Cause): SysMsg {
    match directive
    case RestartChild => Recreate(cause)
    case ResumeChild => Resume
    case _ => Stop
  }

  /** A child of a sibling that is restarted along with the failed child. */
  predicate UnderSibling(s: System, affected: seq<Pid>, child: Pid, x: Pid)
    requires x in s
  {
    && s[x].parent.Some? && s[x].parent.value in affected && s[x].parent.value != child
    && Open(s, s[x].parent.value) && s[s[x].parent.value].Supervises(x)
  }

  ghost function FailureMail(s: System, p: Pid, child: Pid, cause: Cause, h: Hooks, r: Registry, x: Pid): seq<SysMsg>
    requires p in s && x in s
  {
    var directive, affected := InForce(s[p], h), Affected(s[p].registry.children, child, h);
    When(!h.onChildFailed, Upward(s, p, r, h.error, x))
    + When(directive.RestartChild? && UnderSibling(s, affected, child, x), [Suspend])
    + When(x in affected, [AnswerOf(directive, cause)])
    + When(GivesUp(s, p, child, h), Upward(s, p, r, cause, x))
  }

  /** The messages that the handling of its first message by `p` sends to `x`, in order. */
  ghost function HandlerMail(s: System, p: Pid, h: Hooks, r: Registry, x: Pid): seq<SysMsg>
    requires p in s && s[p].inbox != [] && x in s
  {
    var c := s[p];
    var failure := When(Finishes(s, p, h) && !h.postRestart, Upward(s, p, r, h.error, x));
    match c.inbox[0]
    case Suspend => When(c.Supervises(x), [Suspend])
    case Resume => When(c.Supervises(x), [Resume])
    case Kill => Upward(s, p, r, KILLED, x)
    case Create => When(!h.preStart, Upward(s, p, r, h.error, x))
    case Stop => if Ends(c) then Notices(c.watchers, x, p) else When(!Stopping(c) && c.Supervises(x), [Stop])
    case StopChild(d) => When(x == d && c.Supervises(d) && !Stopping(c), [Stop])
    case Recreate(_) => When(!c.failed.Fatal? && h.stopsChildren && c.Supervises(x), [Stop]) + failure
    case DeathWatchNotification(_) => if Ends(c) then Notices(c.watchers, x, p) else failure
    case Failure(child, cause) => FailureMail(s, p, child, cause, h, r, x)
    case _ => []
  }

  ghost function Mail(s: System, m: Move, x: Pid): seq<SysMsg>
    requires Enabled(s, m) && x in s
  {
    match m
    case Report(p, cause) => Upward(s, p, s[p].registry, cause, x)
    case SpawnChild(_, _) => []
    case External(p, msg) => When(x == p, [msg])
    case Handle(p, h) => HandlerMail(s, p, h, RegistryAfter(s, m), x)
  }

  // ---------- what changes in a cell besides ----------

  function Less(n: nat): nat { if n == 0 then 0 else n - 1 }

  /** The suspend counter: releases by a Resume or a finished restart, and one more for each failure and each wait. */
  ghost function Counter(s: System, m: Move, x: Pid): nat
    requires Enabled(s, m) && x in s
  {
    if x == m.pid then
      (if !m.Handle? then s[x].suspends
       else if s[x].inbox[0].Resume? || Finishes(s, x, m.hooks) then Less(s[x].suspends)
       else if s[x].inbox[0].Suspend? || (s[x].inbox[0].Stop? && !Stopping(s[x]) && !Ends(s[x])) then s[x].suspends + 1
       else s[x].suspends) + |Causes(s, m)|
    else s[x].suspends + if RestartsBeside(s, m, x) then 1 else 0
  }

  /** The move restarts `x` for the failure of another child. */
  ghost predicate RestartsBeside(s: System, m: Move, x: Pid)
    requires Enabled(s, m)
  {
    && m.Handle? && s[m.pid].inbox[0].Failure? && InForce(s[m.pid], m.hooks).RestartChild?
    && var child := s[m.pid].inbox[0].child;
       x != child && x in Affected(s[m.pid].registry.children, child, m.hooks)
  }

  /** A failure is on record from its report to the next Resume or finished restart; one of `post_restart` is fatal. */
  ghost function Record(s: System, m: Move, x: Pid): FailedInfo
    requires Enabled(s, m) && x in s
  {
    if x != m.pid then s[x].failed
    else if m.Handle? && (s[x].inbox[0].Resume? || Finishes(s, x, m.hooks))
    then if Causes(s, m) == [] then NotFailed else Fatal
    else if Causes(s, m) != [] && s[x].failed.NotFailed? then FailedBy(x)
    else s[x].failed
  }

  ghost function WatchersAfter(s: System, m: Move, x: Pid): seq<Watch>
    requires Enabled(s, m) && x in s
  {
    if x != m.pid || !m.Handle? then s[x].watchers
    else
      match s[x].inbox[0]
      case WatchFrom(w) => if Watch(w, User) in s[x].watchers then s[x].watchers else s[x].watchers + [Watch(w, User)]
      case UnwatchFrom(w) => Retained(s[x].watchers, w, Some(User))
      case _ => s[x].watchers
  }

  ghost function CauseAfter(s: System, m: Move, x: Pid): Option<Cause>
    requires Enabled(s, m) && x in s
  {
    if x != m.pid || !m.Handle? then s[x].deferredCause
    else if Finishes(s, x, m.hooks) then None
    else if s[x].inbox[0].Recreate? && Restarts(s[x], m.hooks) then Some(s[x].inbox[0].cause)
    else s[x].deferredCause
  }

  function Rest(s: System, m: Move, x: Pid): seq<SysMsg>
    requires Enabled(s, m) && x in s
  {
    if m.Handle? && x == m.pid then s[x].inbox[1..] else s[x].inbox
  }

  ghost predicate EndsAt(s: System, m: Move, x: Pid)
    requires Enabled(s, m)
  {
    m.Handle? && x == m.pid && Ends(s[x])
  }

  /** The whole cell of an actor that goes on. */
  ghost function CellAfter(s: System, m: Move, x: Pid): Cell
    requires Enabled(s, m) && x in s
  {
    Cell(s[x].parent, After(s[x].registry, EventsAt(s, m, x)), WatchersAfter(s, m, x), Record(s, m, x),
         CauseAfter(s, m, x), Counter(s, m, x), false, Rest(s, m, x) + Mail(s, m, x))
  }

  // ---------- the parts of a step ----------

  /** Nobody is its own child or parent, or the child of its own child. */
  ghost predicate Placed(c: Cell, p: Pid) {
    && UniquePids(c.registry.children.Entries()) && c.parent != Some(p)
    && forall d :: c.Supervises(d) ==> d != p && c.parent != Some(d)
  }

  lemma TiedPlaced(s: System, p: Pid)
    requires Tied(s) && Open(s, p)
    ensures Placed(s[p], p)
  {
    assert CellTied(s, p);
    forall d | s[p].Supervises(d) ensures d != p && s[p].parent != Some(d) {
      assert Lifeline(s, p, d, s[p].inbox) && CellTied(s, d);
    }
  }

  ghost function Failing(c: Cell, p: Pid): Cell {
    c.(suspends := c.suspends + 1, failed := if c.failed.NotFailed? then FailedBy(p) else c.failed)
  }

  /** A report in the eyes of `x`. */
  lemma ReportAt(s: System, p: Pid, cause: Cause, x: Pid)
    requires Open(s, p) && Placed(s[p], p) && Open(s, x)
    ensures var t := ReportFailure(s, p, cause);
            var c := if x == p then Failing(s[p], p) else s[x];
            x in t && t[x] == c.(inbox := c.inbox + Upward(s, p, s[p].registry, cause, x))
  {
    ChildrenListed(s[p].registry.children, x);
    ChildrenListed(s[p].registry.children, p);
    var u := s[p := Failing(s[p], p)];
    SendEachResult(u, s[p].Children(), Suspend);
    assert s[x].inbox + [] == s[x].inbox;
    if HasOpenParent(s, p) {
      ChildrenListed(s[p].registry.children, s[p].parent.value);
    }
  }

  lemma BroadcastAt(s: System, p: Pid, c: Cell, m: SysMsg, x: Pid)
    requires Open(s, p) && Placed(s[p], p) && Open(s, x)
    ensures var t := SendEach(s[p := c], s[p].Children(), m);
            x in t && t[x] == if x == p then c else s[x].(inbox := s[x].inbox + When(s[p].Supervises(x), [m]))
  {
    ChildrenListed(s[p].registry.children, x);
    SendEachResult(s[p := c], s[p].Children(), m);
    assert s[x].inbox + [] == s[x].inbox;
  }

  lemma FinishAt(s: System, p: Pid, error: Cause, ok: bool, x: Pid)
    requires Open(s, p) && Placed(s[p], p) && Open(s, x)
    ensures var t := FinishRecreate(s, p, error, ok);
            var c := s[p].(deferredCause := None, suspends := Less(s[p].suspends) + (if ok then 0 else 1), failed := if ok then NotFailed else Fatal);
            var d := if x == p then c else s[x];
            x in t && t[x] == d.(inbox := d.inbox + When(!ok, Upward(s, p, s[p].registry, error, x)))
  {
    var c := s[p].(deferredCause := None, suspends := Less(s[p].suspends));
    assert s[x].inbox + [] == s[x].inbox;
    if !ok {
      ReportAt(s[p := c.(failed := Fatal)], p, error, x);
    }
  }

  ghost predicate SiblingsPlaced(s: System, targets: seq<Pid>) {
    forall y <- targets :: Open(s, y) ==>
      UniquePids(s[y].registry.children.Entries()) && forall d :: s[y].Supervises(d) ==> d != y && IsChild(s, y, d)
  }

  ghost function BesideCell(s: System, targets: seq<Pid>, child: Pid, x: Pid): Cell
    requires x in s
  {
    s[x].(suspends := s[x].suspends + (if x in targets && x != child && Open(s, x) then 1 else 0),
          inbox := s[x].inbox + When(Open(s, x) && UnderSibling(s, targets, child, x), [Suspend]))
  }

  /** The suspension of siblings in the eyes of `x`. */
  lemma {:induction false} SiblingsAt(s: System, targets: seq<Pid>, child: Pid, x: Pid)
    requires x in s && Distinct(targets) && SiblingsPlaced(s, targets)
    ensures var t := SuspendSiblings(s, targets, child); x in t && t[x] == BesideCell(s, targets, child, x)
  {
    if targets == [] {
      assert s[x].inbox + [] == s[x].inbox;
    } else {
      var front, y := targets[..|targets| - 1], targets[|targets| - 1];
      assert targets == front + [y] && y !in front;
      SiblingsAt(s, front, child, x);
      if y in s {
        SiblingsAt(s, front, child, y);
        SiblingNext(s, front, child, x, y);
      }
    }
  }

  lemma UnderNext(s: System, front: seq<Pid>, child: Pid, x: Pid, y: Pid)
    requires x in s && y in s && y !in front && SiblingsPlaced(s, front + [y])
    ensures var under := y != child && Open(s, y) && s[y].Supervises(x);
            && (UnderSibling(s, front + [y], child, x) <==> UnderSibling(s, front, child, x) || under)
            && (under ==> x != y && !UnderSibling(s, front, child, x))
            && (Open(s, y) ==> UniquePids(s[y].registry.children.Entries()))
  {
    assert y in front + [y];
    assert forall z :: z in front + [y] <==> z in front || z == y;
    assert Open(s, y) && s[y].Supervises(x) ==> IsChild(s, y, x);
  }

  lemma SiblingGets(s: System, y: Pid, x: Pid)
    requires x in s && y in s && UniquePids(s[y].registry.children.Entries()) && !s[y].Supervises(y)
    ensures SuspendSibling(s, y)[x]
            == if x == y then s[y].(suspends := s[y].suspends + 1)
               else if s[y].Supervises(x) && Open(s, x) then s[x].(inbox := s[x].inbox + [Suspend]) else s[x]
  {
    var u := s[y := s[y].(suspends := s[y].suspends + 1)];
    ChildrenListed(s[y].registry.children, x);
    SendEachResult(u, s[y].Children(), Suspend);
  }

  lemma SiblingNext(s: System, front: seq<Pid>, child: Pid, x: Pid, y: Pid)
    requires x in s && y in s && y !in front && SiblingsPlaced(s, front + [y])
    requires var t := SuspendSiblings(s, front, child);
             t[x] == BesideCell(s, front, child, x) && t[y] == BesideCell(s, front, child, y)
    ensures var t := SuspendSiblings(s, front, child);
            (if y != child && Open(t, y) then SuspendSibling(t, y)[x] else t[x]) == BesideCell(s, front + [y], child, x)
  {
    var t := SuspendSiblings(s, front, child);
    UnderNext(s, front, child, x, y);
    UnderNext(s, front, child, y, y);
    assert x in front + [y] <==> x in front || x == y;
    if y != child && Open(t, y) {
      SiblingGets(t, y, x);
      assert s[x].inbox + [] == s[x].inbox;
    }
  }

  // ---------- the handlers in the eyes of `x` ----------

  /** `t` holds the cell that the local view expects, up to the registry. */
  ghost predicate Seen(s: System, m: Move, t: System, x: Pid)
    requires Enabled(s, m) && x in s
  {
    x in t && t[x] == CellAfter(s, m, x).(registry := t[x].registry)
  }

  lemma WaveAt(s: System, p: Pid, h: Hooks, x: Pid)
    requires Tied(s) && Enabled(s, Handle(p, h)) && Open(s, x)
    requires s[p].inbox[0].Suspend? || s[p].inbox[0].Resume?
    ensures Seen(s, Handle(p, h), Moved(s, Handle(p, h)), x)
  {
    TiedPlaced(s, p);
    assert s[p].inbox[1..] + [] == s[p].inbox[1..];
    if s[p].inbox[0].Suspend? {
      BroadcastAt(s, p, s[p].(suspends := s[p].suspends + 1, inbox := s[p].inbox[1..]), Suspend, x);
    } else {
      BroadcastAt(s, p, s[p].(suspends := Less(s[p].suspends), failed := NotFailed, inbox := s[p].inbox[1..]), Resume, x);
    }
  }

  lemma PlainAt(s: System, p: Pid, h: Hooks, x: Pid)
    requires Tied(s) && Enabled(s, Handle(p, h)) && Open(s, x)
    requires s[p].inbox[0].StopChild? || s[p].inbox[0].WatchFrom? || s[p].inbox[0].UnwatchFrom?
    ensures Seen(s, Handle(p, h), Moved(s, Handle(p, h)), x)
  {
    TiedPlaced(s, p);
    assert Rest(s, Handle(p, h), x) + [] == Rest(s, Handle(p, h), x);
  }

  lemma OwnFailureAt(s: System, p: Pid, h: Hooks, x: Pid)
    requires Tied(s) && Enabled(s, Handle(p, h)) && Open(s, x)
    requires s[p].inbox[0].Kill? || s[p].inbox[0].Create?
    ensures Seen(s, Handle(p, h), Moved(s, Handle(p, h)), x)
  {
    var t := PopHead(s, p);
    TiedPlaced(s, p);
    AfterNone(s[p].registry);
    assert Rest(s, Handle(p, h), x) + [] == Rest(s, Handle(p, h), x);
    ReportAt(t, p, if s[p].inbox[0].Kill? then KILLED else h.error, x);
  }

  /** The end of `p` in the eyes of somebody else. */
  lemma TerminateAt(s: System, p: Pid, x: Pid)
    requires Tied(s) && Open(s, p) && Open(s, x) && x != p
    ensures var t := FinishTerminate(s, p);
            x in t && t[x] == s[x].(inbox := s[x].inbox + Notices(s[p].watchers, x, p))
  {
    TerminateTiedCell(s, p, x);
    NotifyReaches(s[p := s[p].(stopped := true, watchers := [])], s[p].watchers, p, x);
  }

  /** A move that only sends messages, ends its actor or begins a wait leaves the other fields of a cell alone. */
  lemma StopFields(s: System, p: Pid, h: Hooks, x: Pid)
    requires Enabled(s, Handle(p, h)) && x in s && s[p].inbox[0] == Stop
    ensures var m := Handle(p, h);
            && Record(s, m, x) == s[x].failed && CauseAfter(s, m, x) == s[x].deferredCause && WatchersAfter(s, m, x) == s[x].watchers
            && Counter(s, m, x) == s[x].suspends + (if x == p && !Stopping(s[p]) && !Ends(s[p]) then 1 else 0)
            && Mail(s, m, x) == (if Ends(s[p]) then Notices(s[p].watchers, x, p) else When(!Stopping(s[p]) && s[p].Supervises(x), [Stop]))
  {
  }

  lemma WaitingAt(s: System, p: Pid, x: Pid)
    requires Tied(s) && Open(s, p) && Open(s, x) && s[p].inbox != [] && !Stopping(s[p]) && s[p].Children() != []
    ensures var t := OnStop(s, p);
            && x in t
            && t[x] == (if x == p then s[p].(registry := t[p].registry, suspends := s[p].suspends + 1, inbox := s[p].inbox[1..])
                        else s[x].(inbox := s[x].inbox + When(s[p].Supervises(x), [Stop])))
            && !s[p].Supervises(p)
  {
    var t, pids := PopHead(s, p), s[p].Children();
    TiedPlaced(s, p);
    var marked := SetReason(MarkAll(s[p].registry.children, pids), Termination).0;
    BroadcastAt(t, p, t[p].(registry := t[p].registry.(children := marked), suspends := t[p].suspends + 1), Stop, x);
  }

  lemma StopAt(s: System, p: Pid, h: Hooks, x: Pid)
    requires Tied(s) && Enabled(s, Handle(p, h)) && Open(s, x) && s[p].inbox[0] == Stop && !EndsAt(s, Handle(p, h), x)
    ensures Seen(s, Handle(p, h), Moved(s, Handle(p, h)), x)
  {
    StopFields(s, p, h, x);
    assert Rest(s, Handle(p, h), x) + [] == Rest(s, Handle(p, h), x);
    if Ends(s[p]) {
      PopTied(s, p);
      TerminateAt(PopHead(s, p), p, x);
    } else if !Stopping(s[p]) {
      WaitingAt(s, p, x);
    }
  }

  lemma NotificationAt(s: System, p: Pid, dead: Pid, h: Hooks, x: Pid)
    requires Tied(s) && Enabled(s, Handle(p, h)) && Open(s, x) && s[p].inbox[0] == DeathWatchNotification(dead)
    requires !EndsAt(s, Handle(p, h), x)
    ensures Seen(s, Handle(p, h), Moved(s, Handle(p, h)), x)
  {
    var (r, change) := Notified(s[p].registry, dead);
    var c := s[p].(registry := r, inbox := s[p].inbox[1..]);
    var t := s[p := c];
    assert PopHead(s[p := s[p].(registry := r)], p) == t;
    AfterOne(s[p].registry, Notification(dead));
    NotifiedTied(s, p, dead, c);
    TiedPlaced(t, p);
    assert Rest(s, Handle(p, h), x) + [] == Rest(s, Handle(p, h), x);
    match change {
      case Some(Recreation(_)) => FinishAt(t, p, h.error, h.postRestart, x);
      case Some(Termination) => TerminateAt(t, p, x);
      case _ =>
    }
  }

  /** The first half of a restart: children stopped or not, and the message gone. */
  lemma BeforeReasonAt(s: System, p: Pid, h: Hooks, x: Pid)
    requires Tied(s) && Open(s, p) && s[p].inbox != [] && Open(s, x)
    ensures var t := BeforeReason(s, p, h);
            && x in t && p in t && t[p] == s[p].(inbox := s[p].inbox[1..], registry := if h.stopsChildren then ChildrenStopped(s[p].registry) else s[p].registry)
            && (x != p ==> t[x] == s[x].(inbox := s[x].inbox + When(h.stopsChildren && s[p].Supervises(x), [Stop])))
  {
    TiedPlaced(s, p);
    var c := s[p].(registry := ChildrenStopped(s[p].registry));
    BroadcastAt(s, p, c, Stop, x);
    BroadcastAt(s, p, c, Stop, p);
    assert s[x].inbox + [] == s[x].inbox;
  }

  lemma RecreateAt(s: System, p: Pid, cause: Cause, h: Hooks, x: Pid)
    requires Tied(s) && Enabled(s, Handle(p, h)) && Open(s, x) && s[p].inbox[0] == Recreate(cause)
    ensures Seen(s, Handle(p, h), Moved(s, Handle(p, h)), x)
  {
    TiedPlaced(s, p);
    assert Rest(s, Handle(p, h), x) + [] == Rest(s, Handle(p, h), x);
    if !s[p].failed.Fatal? {
      BeforeReasonAt(s, p, h, x);
      RestartEvents(s[p].registry, cause, h.stopsChildren, h.preRestart);
      if h.preRestart {
        BeforeReasonKeeps(s, p, h);
        if Finishes(s, p, h) {
          FinishedAt(s, p, cause, h, x);
        } else {
          DeferredAt(s, p, cause, h, x);
        }
      }
    }
  }

  lemma BeforeReasonOpen(s: System, p: Pid, h: Hooks)
    requires Open(s, p) && s[p].inbox != []
    ensures var t := BeforeReason(s, p, h); forall y :: Open(t, y) <==> Open(s, y)
  {
    SendEachHead(s[p := s[p].(registry := ChildrenStopped(s[p].registry))], s[p].Children(), Stop, p);
  }

  /** The state with the reason set. */
  ghost function WithReason(t: System, p: Pid, cause: Cause): System
    requires p in t
  {
    t[p := t[p].(deferredCause := Some(cause), registry := t[p].registry.(children := SetReason(t[p].registry.children, Recreation(cause)).0))]
  }

  /** The registry in which a restart leaves its cell. */
  lemma ReasonAfter(c: Cell, cause: Cause, h: Hooks)
    requires c.inbox != [] && c.inbox[0] == Recreate(cause) && Restarts(c, h)
    ensures var u := if h.stopsChildren then ChildrenStopped(c.registry) else c.registry;
            After(c.registry, HandlerEvents(c, h)) == u.(children := SetReason(u.children, Recreation(cause)).0)
  {
    RestartEvents(c.registry, cause, h.stopsChildren, h.preRestart);
  }

  lemma RestartRegistryAfter(s: System, p: Pid, cause: Cause, h: Hooks)
    requires Tied(s) && Enabled(s, Handle(p, h)) && s[p].inbox[0] == Recreate(cause) && Restarts(s[p], h)
    ensures var t := BeforeReason(s, p, h);
            && p in t && WithReason(t, p, cause)[p].registry == RegistryAfter(s, Handle(p, h))
            && (Finishes(s, p, h) <==> !t[p].registry.children.Terminating?)
  {
    BeforeReasonAt(s, p, h, p);
    ReasonAfter(s[p], cause, h);
  }

  lemma RestartMoves(s: System, p: Pid, cause: Cause, h: Hooks)
    requires Tied(s) && Open(s, p) && s[p].inbox != [] && Restarts(s[p], h)
    ensures var t := BeforeReason(s, p, h);
            && p in t
            && OnRecreate(s, p, cause, h)
               == if t[p].registry.children.Terminating? then WithReason(t, p, cause)
                  else FinishRecreate(WithReason(t, p, cause), p, h.error, h.postRestart)
  {
    BeforeReasonAt(s, p, h, p);
  }

  /** The second half, when it waits for children. */
  lemma DeferredAt(s: System, p: Pid, cause: Cause, h: Hooks, x: Pid)
    requires Tied(s) && Enabled(s, Handle(p, h)) && Open(s, x) && s[p].inbox[0] == Recreate(cause) && Restarts(s[p], h)
    requires !Finishes(s, p, h)
    ensures Seen(s, Handle(p, h), Moved(s, Handle(p, h)), x)
  {
    RestartRegistryAfter(s, p, cause, h);
    RestartMoves(s, p, cause, h);
    BeforeReasonAt(s, p, h, x);
    TiedPlaced(s, p);
    Joined(Rest(s, Handle(p, h), x), When(h.stopsChildren && s[p].Supervises(x), [Stop]), []);
  }

  lemma Joined(a: seq<SysMsg>, b: seq<SysMsg>, c: seq<SysMsg>)
    ensures a + b + c == a + (b + c) && a + [] == a && [] + c == c && b + [] == b
  {
  }

  lemma FinishedFields(s: System, p: Pid, cause: Cause, h: Hooks, x: Pid)
    requires Enabled(s, Handle(p, h)) && x in s && s[p].inbox[0] == Recreate(cause) && Finishes(s, p, h)
    ensures Record(s, Handle(p, h), x) == if x != p then s[x].failed else if h.postRestart then NotFailed else Fatal
    ensures CauseAfter(s, Handle(p, h), x) == if x == p then None else s[x].deferredCause
    ensures WatchersAfter(s, Handle(p, h), x) == s[x].watchers
    ensures Counter(s, Handle(p, h), x) == if x == p then Less(s[x].suspends) + (if h.postRestart then 0 else 1) else s[x].suspends
    ensures Mail(s, Handle(p, h), x)
            == When(h.stopsChildren && s[p].Supervises(x), [Stop])
               + When(!h.postRestart, Upward(s, p, RegistryAfter(s, Handle(p, h)), h.error, x))
  {
  }

  /** The second half, when it finishes at once. */
  lemma FinishedAt(s: System, p: Pid, cause: Cause, h: Hooks, x: Pid)
    requires Tied(s) && Enabled(s, Handle(p, h)) && Open(s, x) && s[p].inbox[0] == Recreate(cause) && Finishes(s, p, h)
    requires Tied(BeforeReason(s, p, h))
    ensures Seen(s, Handle(p, h), Moved(s, Handle(p, h)), x)
  {
    var t := BeforeReason(s, p, h);
    RestartRegistryAfter(s, p, cause, h);
    RestartMoves(s, p, cause, h);
    BeforeReasonAt(s, p, h, x);
    BeforeReasonOpen(s, p, h);
    TiedPlaced(t, p);
    TiedPlaced(s, p);
    var u := WithReason(t, p, cause);
    FinishAt(u, p, h.error, h.postRestart, x);
    assert Upward(u, p, u[p].registry, h.error, x) == Upward(s, p, RegistryAfter(s, Handle(p, h)), h.error, x);
    FinishedFields(s, p, cause, h, x);
    Joined(Rest(s, Handle(p, h), x), When(h.stopsChildren && s[p].Supervises(x), [Stop]),
           When(!h.postRestart, Upward(s, p, RegistryAfter(s, Handle(p, h)), h.error, x)));
  }

  // ---------- a failure answered, in the eyes of `x` ----------

  lemma AffectedChildren(s: System, p: Pid, child: Pid, cause: Cause, h: Hooks)
    requires Tied(s) && Open(s, p) && s[p].inbox != [] && s[p].inbox[0] == Failure(child, cause)
    ensures var affected := Affected(s[p].registry.children, child, h);
            && Distinct(affected) && forall y <- affected :: IsChild(s, p, y) && p < y
    ensures !s[p].registry.children.Terminated? ==> child in Affected(s[p].registry.children, child, h)
  {
    var a := s[p].registry.children;
    assert CellTied(s, p);
    InboxPop(s, p, s[p].inbox);
    AffectedOnce(a, child, h);
    TouchAdds(a, child, h.stats);
    AllListed(TouchStats(a, child, h.stats));
    if !a.Terminated? {
      TouchesOne(a, child, h.stats, child);
      StatsOfAppend(TouchStats(a, child, h.stats).Entries(), Child(child, h.stats), child);
    }
    forall y | y in Affected(a, child, h) ensures IsChild(s, p, y) && p < y {
      assert y == child || s[p].Supervises(y);
      assert CellTied(s, y);
    }
  }

  /** The registry is brought up to date with the failure. */
  ghost function Noted(s: System, p: Pid, child: Pid, h: Hooks): System
    requires p in s
  {
    var next := ChildrenAfterFailure(s[p].registry.children, child, Affected(s[p].registry.children, child, h), InForce(s[p], h), h.stats);
    s[p := s[p].(registry := s[p].registry.(children := next))]
  }

  /** Everything up to the directive: `on_child_failed` has run, too, and the message is gone. */
  ghost function BeforeDirective(s: System, p: Pid, child: Pid, h: Hooks): System
    requires p in s
  {
    var t := Noted(s, p, child, h);
    PopHead(if h.onChildFailed then t else ReportFailure(t, p, h.error), p)
  }

  lemma NotedTied(s: System, p: Pid, child: Pid, cause: Cause, h: Hooks)
    requires Tied(s) && Enabled(s, Handle(p, h)) && s[p].inbox[0] == Failure(child, cause)
    ensures Tied(Noted(s, p, child, h)) && Noted(s, p, child, h) == s[p := s[p].(registry := RegistryAfter(s, Handle(p, h)))]
  {
    var affected, directive := Affected(s[p].registry.children, child, h), InForce(s[p], h);
    var next := ChildrenAfterFailure(s[p].registry.children, child, affected, directive, h.stats);
    FailureRegistryKeeps(s, p, child, next, h.stats, if directive.StopThem? then affected else []);
    AfterOne(s[p].registry, HandlerEvents(s[p], h)[0]);
  }

  lemma BeforeDirectiveTied(s: System, p: Pid, child: Pid, cause: Cause, h: Hooks)
    requires Tied(s) && Enabled(s, Handle(p, h)) && s[p].inbox[0] == Failure(child, cause)
    ensures var t := BeforeDirective(s, p, child, h);
            && Tied(t) && Open(t, p) && t[p].registry == RegistryAfter(s, Handle(p, h))
            && Moved(s, Handle(p, h)) == Direct(t, p, child, cause, InForce(s[p], h), Affected(s[p].registry.children, child, h))
  {
    var t := Noted(s, p, child, h);
    NotedTied(s, p, child, cause, h);
    if !h.onChildFailed {
      ReportKeepsTies(t, p, h.error);
      ReportHead(t, p, h.error);
    }
    PopKeeps(if h.onChildFailed then t else ReportFailure(t, p, h.error), p);
  }

  lemma BeforeDirectiveAt(s: System, p: Pid, child: Pid, cause: Cause, h: Hooks, x: Pid)
    requires Tied(s) && Enabled(s, Handle(p, h)) && Open(s, x) && s[p].inbox[0] == Failure(child, cause)
    ensures var t, r := BeforeDirective(s, p, child, h), RegistryAfter(s, Handle(p, h));
            var c := if x != p then s[x] else if h.onChildFailed then s[p].(registry := r) else Failing(s[p].(registry := r), p);
            && x in t
            && t[x] == c.(inbox := Rest(s, Handle(p, h), x) + When(!h.onChildFailed, Upward(s, p, r, h.error, x)))
  {
    var t := Noted(s, p, child, h);
    NotedTied(s, p, child, cause, h);
    TiedPlaced(t, p);
    assert Rest(s, Handle(p, h), x) + [] == Rest(s, Handle(p, h), x);
    if !h.onChildFailed {
      ReportAt(t, p, h.error, x);
      if x == p {
        var more := Upward(s, p, t[p].registry, h.error, p);
        assert (s[p].inbox + more)[1..] == s[p].inbox[1..] + more;
      }
    }
  }

  /** What of the directive reaches `x`. */
  ghost function DirectMail(s: System, p: Pid, child: Pid, cause: Cause, directive: Directive, affected: seq<Pid>, x: Pid): seq<SysMsg>
    requires p in s && x in s
  {
    When(directive.RestartChild? && UnderSibling(s, affected, child, x), [Suspend])
    + When(x in affected, [AnswerOf(directive, cause)])
    + When(Gives(s, directive, affected), Upward(s, p, s[p].registry, cause, x))
  }

  predicate Gives(s: System, directive: Directive, affected: seq<Pid>) {
    directive.EscalateUp? || (directive.RestartChild? && exists x <- affected :: !Open(s, x))
  }

  ghost function DirectCell(s: System, p: Pid, child: Pid, directive: Directive, affected: seq<Pid>, x: Pid): Cell
    requires p in s && x in s
  {
    if x == p then if Gives(s, directive, affected) then Failing(s[p], p) else s[p]
    else s[x].(suspends := s[x].suspends + if directive.RestartChild? && x in affected && x != child then 1 else 0)
  }

  ghost predicate Family(s: System, p: Pid, affected: seq<Pid>) {
    Tied(s) && Open(s, p) && Distinct(affected) && forall y <- affected :: IsChild(s, p, y) && p < y
  }

  lemma FamilyPlaced(s: System, p: Pid, affected: seq<Pid>, child: Pid)
    requires Family(s, p, affected)
    ensures Placed(s[p], p) && SiblingsPlaced(s, affected) && p !in affected && !UnderSibling(s, affected, child, p)
  {
    TiedPlaced(s, p);
    assert CellTied(s, p);
    forall y | y in affected && Open(s, y)
      ensures UniquePids(s[y].registry.children.Entries()) && forall d :: s[y].Supervises(d) ==> d != y && IsChild(s, y, d)
    {
      TiedPlaced(s, y);
      assert CellTied(s, y);
    }
  }

  /** The part of a directive that goes to the affected children and their children. */
  ghost function Answered(s: System, child: Pid, cause: Cause, directive: Directive, affected: seq<Pid>): System {
    SendEach(if directive.RestartChild? then SuspendSiblings(s, affected, child) else s, affected, AnswerOf(directive, cause))
  }

  lemma AnsweredAt(s: System, p: Pid, child: Pid, cause: Cause, directive: Directive, affected: seq<Pid>, x: Pid)
    requires Family(s, p, affected) && Open(s, x)
    ensures var t := Answered(s, child, cause, directive, affected);
            var waves := When(directive.RestartChild? && UnderSibling(s, affected, child, x), [Suspend]);
            var answer := When(x in affected, [AnswerOf(directive, cause)]);
            && x in t && t[x] == s[x].(inbox := s[x].inbox + waves + answer,
                                       suspends := s[x].suspends + if directive.RestartChild? && x in affected && x != child then 1 else 0)
  {
    FamilyPlaced(s, p, affected, child);
    var u := if directive.RestartChild? then SuspendSiblings(s, affected, child) else s;
    SiblingsAt(s, affected, child, x);
    SendEachResult(u, affected, AnswerOf(directive, cause));
    assert s[x].inbox + [] == s[x].inbox && u[x].inbox + [] == u[x].inbox;
  }

  lemma AnsweredOpen(s: System, p: Pid, child: Pid, cause: Cause, directive: Directive, affected: seq<Pid>)
    requires Family(s, p, affected)
    ensures var t := Answered(s, child, cause, directive, affected);
            && Direct(s, p, child, cause, directive, affected)
               == (if Gives(s, directive, affected) then ReportFailure(t, p, cause) else t)
            && forall y :: Open(t, y) <==> Open(s, y)
  {
    FamilyPlaced(s, p, affected, child);
    var u := if directive.RestartChild? then SuspendSiblings(s, affected, child) else s;
    forall y | y in s ensures Open(u, y) <==> Open(s, y) {
      SiblingsAt(s, affected, child, y);
    }
    SendEachHead(u, affected, AnswerOf(directive, cause), p);
  }

  lemma JoinedThrice(a: seq<SysMsg>, b: seq<SysMsg>, c: seq<SysMsg>, d: seq<SysMsg>)
    ensures a + b + c + d == a + (b + c + d) && a + b + c == a + (b + c + []) && a + b + (c + d) == a + (b + c + d)
  {
  }

  lemma DirectAt(s: System, p: Pid, child: Pid, cause: Cause, directive: Directive, affected: seq<Pid>, x: Pid)
    requires Family(s, p, affected) && Open(s, x)
    ensures var t, c := Direct(s, p, child, cause, directive, affected), DirectCell(s, p, child, directive, affected, x);
            x in t && t[x] == c.(inbox := s[x].inbox + DirectMail(s, p, child, cause, directive, affected, x))
  {
    var t := Answered(s, child, cause, directive, affected);
    FamilyPlaced(s, p, affected, child);
    AnsweredOpen(s, p, child, cause, directive, affected);
    AnsweredAt(s, p, child, cause, directive, affected, x);
    AnsweredAt(s, p, child, cause, directive, affected, p);
    var waves := When(directive.RestartChild? && UnderSibling(s, affected, child, x), [Suspend]);
    var answer := When(x in affected, [AnswerOf(directive, cause)]);
    if Gives(s, directive, affected) {
      ReportAt(t, p, cause, x);
      assert Upward(t, p, t[p].registry, cause, x) == Upward(s, p, s[p].registry, cause, x);
    }
    JoinedThrice(s[x].inbox, waves, answer, When(Gives(s, directive, affected), Upward(s, p, s[p].registry, cause, x)));
  }

  /** A report moves no link, registry or end of anybody. */
  ghost predicate SameFrame(s: System, t: System, p: Pid) {
    t.Keys == s.Keys && forall y :: y in s ==>
      t[y].parent == s[y].parent && t[y].stopped == s[y].stopped && (y != p ==> t[y].registry == s[y].registry)
  }

  lemma ReportFrame(s: System, p: Pid, cause: Cause)
    requires Open(s, p)
    ensures SameFrame(s, ReportFailure(s, p, cause), p)
  {
    SuspensionKeeps(s, p, Failing(s[p], p));
    var u := SendEach(s[p := Failing(s[p], p)], s[p].Children(), Suspend);
    forall y | y in s ensures u[y].parent == s[y].parent && u[y].stopped == s[y].stopped {
      assert HarmlessAt(s, u, y);
    }
    ReportKeepsTies(s, p, cause);
  }

  lemma BeforeDirectiveSame(s: System, p: Pid, child: Pid, h: Hooks)
    requires Open(s, p)
    ensures SameFrame(s, BeforeDirective(s, p, child, h), p)
  {
    ReportFrame(Noted(s, p, child, h), p, h.error);
  }

  lemma BeforeDirectiveFrame(s: System, p: Pid, child: Pid, cause: Cause, h: Hooks)
    requires Tied(s) && Enabled(s, Handle(p, h)) && s[p].inbox[0] == Failure(child, cause)
    ensures SameFrame(s, BeforeDirective(s, p, child, h), p)
    ensures Family(BeforeDirective(s, p, child, h), p, Affected(s[p].registry.children, child, h))
  {
    BeforeDirectiveSame(s, p, child, h);
    AffectedChildren(s, p, child, cause, h);
    BeforeDirectiveTied(s, p, child, cause, h);
  }

  lemma SameUpward(s: System, t: System, p: Pid, child: Pid, h: Hooks, affected: seq<Pid>, cause: Cause, x: Pid)
    requires SameFrame(s, t, p) && p in s && x in s && forall y <- affected :: p < y
    requires affected == Affected(s[p].registry.children, child, h)
    ensures forall r :: Upward(t, p, r, cause, x) == Upward(s, p, r, cause, x)
    ensures UnderSibling(t, affected, child, x) <==> UnderSibling(s, affected, child, x)
    ensures Gives(t, InForce(s[p], h), affected) <==> GivesUp(s, p, child, h)
  {
    forall y ensures Open(t, y) <==> Open(s, y) {
    }
  }

  /** How many failures the answer to a failure brings. */
  lemma CausesCount(s: System, p: Pid, child: Pid, cause: Cause, h: Hooks)
    requires p in s
    ensures |FailureCauses(s, p, child, cause, h)|
            == (if h.onChildFailed then 0 else 1) + (if GivesUp(s, p, child, h) then 1 else 0)
  {
    var first, second := if h.onChildFailed then [] else [h.error], if GivesUp(s, p, child, h) then [cause] else [];
    assert FailureCauses(s, p, child, cause, h) == first + second;
  }

  lemma FailureFields(s: System, p: Pid, child: Pid, cause: Cause, h: Hooks, x: Pid)
    requires Enabled(s, Handle(p, h)) && x in s && s[p].inbox[0] == Failure(child, cause)
    ensures var n := |FailureCauses(s, p, child, cause, h)|;
            && Record(s, Handle(p, h), x) == (if x == p && n > 0 && s[p].failed.NotFailed? then FailedBy(p) else s[x].failed)
            && CauseAfter(s, Handle(p, h), x) == s[x].deferredCause && WatchersAfter(s, Handle(p, h), x) == s[x].watchers
            && Counter(s, Handle(p, h), x) == s[x].suspends + (if x == p then n else if RestartsBeside(s, Handle(p, h), x) then 1 else 0)
            && Mail(s, Handle(p, h), x) == FailureMail(s, p, child, cause, h, RegistryAfter(s, Handle(p, h)), x)
  {
  }

  lemma DirectiveMail(s: System, p: Pid, child: Pid, cause: Cause, h: Hooks, x: Pid)
    requires Tied(s) && Enabled(s, Handle(p, h)) && x in s && s[p].inbox[0] == Failure(child, cause)
    ensures var t, affected := BeforeDirective(s, p, child, h), Affected(s[p].registry.children, child, h);
            && p in t && x in t && (Gives(t, InForce(s[p], h), affected) <==> GivesUp(s, p, child, h))
            && DirectMail(t, p, child, cause, InForce(s[p], h), affected, x)
               == AfterHook(s, p, child, cause, h, RegistryAfter(s, Handle(p, h)), x)
  {
    AffectedChildren(s, p, child, cause, h);
    BeforeDirectiveTied(s, p, child, cause, h);
    BeforeDirectiveFrame(s, p, child, cause, h);
    SameUpward(s, BeforeDirective(s, p, child, h), p, child, h, Affected(s[p].registry.children, child, h), cause, x);
  }

  lemma FailureAt(s: System, p: Pid, child: Pid, cause: Cause, h: Hooks, x: Pid)
    requires Tied(s) && Enabled(s, Handle(p, h)) && Open(s, x) && s[p].inbox[0] == Failure(child, cause)
    ensures Seen(s, Handle(p, h), Moved(s, Handle(p, h)), x)
  {
    var t, affected, directive := BeforeDirective(s, p, child, h), Affected(s[p].registry.children, child, h), InForce(s[p], h);
    BeforeDirectiveTied(s, p, child, cause, h);
    BeforeDirectiveFrame(s, p, child, cause, h);
    BeforeDirectiveAt(s, p, child, cause, h, x);
    DirectAt(t, p, child, cause, directive, affected, x);
    DirectiveMail(s, p, child, cause, h, x);
    FailureMailSplits(s, p, child, cause, h, RegistryAfter(s, Handle(p, h)), Rest(s, Handle(p, h), x), x);
    CausesCount(s, p, child, cause, h);
    FailureFields(s, p, child, cause, h, x);
  }

  /** The mail of a failure after that of `on_child_failed`. */
  ghost function AfterHook(s: System, p: Pid, child: Pid, cause: Cause, h: Hooks, r: Registry, x: Pid): seq<SysMsg>
    requires p in s && x in s
  {
    var directive, affected := InForce(s[p], h), Affected(s[p].registry.children, child, h);
    When(directive.RestartChild? && UnderSibling(s, affected, child, x), [Suspend])
    + When(x in affected, [AnswerOf(directive, cause)])
    + When(GivesUp(s, p, child, h), Upward(s, p, r, cause, x))
  }

  lemma FailureMailSplits(s: System, p: Pid, child: Pid, cause: Cause, h: Hooks, r: Registry, before: seq<SysMsg>, x: Pid)
    requires p in s && x in s
    ensures before + When(!h.onChildFailed, Upward(s, p, r, h.error, x)) + AfterHook(s, p, child, cause, h, r, x)
            == before + FailureMail(s, p, child, cause, h, r, x)
  {
    var directive, affected := InForce(s[p], h), Affected(s[p].registry.children, child, h);
    JoinedFour(before, When(!h.onChildFailed, Upward(s, p, r, h.error, x)),
               When(directive.RestartChild? && UnderSibling(s, affected, child, x), [Suspend]),
               When(x in affected, [AnswerOf(directive, cause)]), When(GivesUp(s, p, child, h), Upward(s, p, r, cause, x)));
  }

  lemma JoinedFour(a: seq<SysMsg>, b: seq<SysMsg>, c: seq<SysMsg>, d: seq<SysMsg>, e: seq<SysMsg>)
    ensures a + b + (c + d + e) == a + (b + c + d + e)
  {
  }

  // ---------- every step in the eyes of `x` ----------

  lemma HandleAt(s: System, p: Pid, h: Hooks, x: Pid)
    requires Tied(s) && Enabled(s, Handle(p, h)) && Open(s, x) && !EndsAt(s, Handle(p, h), x)
    ensures Seen(s, Handle(p, h), Moved(s, Handle(p, h)), x)
  {
    match s[p].inbox[0] {
      case Failure(child, cause) => FailureAt(s, p, child, cause, h, x);
      case Recreate(cause) => RecreateAt(s, p, cause, h, x);
      case DeathWatchNotification(dead) => NotificationAt(s, p, dead, h, x);
      case Stop => StopAt(s, p, h, x);
      case Kill => OwnFailureAt(s, p, h, x);
      case Create => OwnFailureAt(s, p, h, x);
      case Suspend => WaveAt(s, p, h, x);
      case Resume => WaveAt(s, p, h, x);
      case _ => PlainAt(s, p, h, x);
    }
  }

  /** What a move does to the cell of any open actor that it does not end. */
  lemma MoveAt(s: System, m: Move, x: Pid)
    requires Tied(s) && Enabled(s, m) && Open(s, x) && !EndsAt(s, m, x)
    ensures x in Moved(s, m) && Moved(s, m)[x] == CellAfter(s, m, x)
  {
    MoveProjects(s, m, x);
    assert s[x].inbox + [] == s[x].inbox;
    match m {
      case Report(p, cause) =>
        TiedPlaced(s, p);
        ReportAt(s, p, cause, x);
      case SpawnChild(_, _) =>
      case External(_, _) =>
      case Handle(p, h) => HandleAt(s, p, h, x);
    }
  }

  // ---------- ends are final ----------

  /** Links stay, and so does the end of anybody who has ended. */
  ghost predicate Final(s: System, t: System, x: Pid) {
    x in s ==> x in t && t[x].parent == s[x].parent && (s[x].stopped ==> t[x].stopped)
  }

  lemma SendEachFinal(s: System, targets: seq<Pid>, m: SysMsg, x: Pid)
    requires Neutral(m)
    ensures Final(s, SendEach(s, targets, m), x)
  {
    SendEachHarmless(s, targets, m);
    assert x in s ==> HarmlessAt(s, SendEach(s, targets, m), x);
  }

  lemma FinishFinal(s: System, p: Pid, error: Cause, ok: bool, x: Pid)
    requires Open(s, p)
    ensures Final(s, FinishRecreate(s, p, error, ok), x)
  {
    var c := s[p].(deferredCause := None, suspends := Less(s[p].suspends), failed := if ok then NotFailed else Fatal);
    ReportFrame(s[p := c], p, error);
  }

  lemma TerminateFinal(s: System, p: Pid, x: Pid)
    requires Open(s, p) && s[p].parent != Some(p)
    ensures Final(s, FinishTerminate(s, p), x) && FinishTerminate(s, p)[p].stopped
  {
    TerminateCloses(s, p);
    if x in s && x != p {
      TerminateReaches(s, p, x);
    }
  }

  lemma DirectFinal(s: System, p: Pid, child: Pid, cause: Cause, directive: Directive, affected: seq<Pid>, x: Pid)
    requires Family(s, p, affected)
    ensures Final(s, Direct(s, p, child, cause, directive, affected), x)
  {
    var u := if directive.RestartChild? then SuspendSiblings(s, affected, child) else s;
    SiblingsHarmless(s, affected, child);
    assert directive.RestartChild? && x in s ==> HarmlessAt(s, u, x);
    SendEachFinal(u, affected, AnswerOf(directive, cause), x);
    AnsweredOpen(s, p, child, cause, directive, affected);
    ReportFrame(Answered(s, child, cause, directive, affected), p, cause);
  }

  lemma WaveFinal(s: System, p: Pid, h: Hooks, x: Pid)
    requires Enabled(s, Handle(p, h)) && (s[p].inbox[0].Suspend? || s[p].inbox[0].Resume?)
    ensures Final(s, Moved(s, Handle(p, h)), x)
  {
    if s[p].inbox[0].Suspend? {
      SendEachFinal(s[p := s[p].(suspends := s[p].suspends + 1, inbox := s[p].inbox[1..])], s[p].Children(), Suspend, x);
    } else {
      var c := s[p].(suspends := Less(s[p].suspends), failed := NotFailed, inbox := s[p].inbox[1..]);
      SendEachFinal(s[p := c], s[p].Children(), Resume, x);
    }
  }

  lemma StopFinal(s: System, p: Pid, x: Pid)
    requires Open(s, p) && s[p].inbox != [] && s[p].parent != Some(p)
    ensures Final(s, OnStop(s, p), x)
  {
    var t, pids := PopHead(s, p), s[p].Children();
    if !Stopping(s[p]) {
      if pids == [] {
        TerminateFinal(t, p, x);
      } else {
        var marked := SetReason(MarkAll(s[p].registry.children, pids), Termination).0;
        SendEachFinal(t[p := t[p].(registry := t[p].registry.(children := marked), suspends := t[p].suspends + 1)], pids, Stop, x);
      }
    }
  }

  lemma NotificationFinal(s: System, p: Pid, dead: Pid, h: Hooks, x: Pid)
    requires Open(s, p) && s[p].inbox != [] && s[p].parent != Some(p)
    ensures Final(s, OnNotification(s, p, dead, h), x)
  {
    var r := Notified(s[p].registry, dead).0;
    var u := s[p := s[p].(registry := r, inbox := s[p].inbox[1..])];
    assert PopHead(s[p := s[p].(registry := r)], p) == u;
    FinishFinal(u, p, h.error, h.postRestart, x);
    TerminateFinal(u, p, x);
  }

  lemma FailureFinal(s: System, p: Pid, child: Pid, cause: Cause, h: Hooks, x: Pid)
    requires Tied(s) && Enabled(s, Handle(p, h)) && s[p].inbox[0] == Failure(child, cause)
    ensures Final(s, Moved(s, Handle(p, h)), x)
  {
    BeforeDirectiveTied(s, p, child, cause, h);
    BeforeDirectiveFrame(s, p, child, cause, h);
    DirectFinal(BeforeDirective(s, p, child, h), p, child, cause, InForce(s[p], h), Affected(s[p].registry.children, child, h), x);
  }

  lemma HandleFinal(s: System, p: Pid, h: Hooks, x: Pid)
    requires Tied(s) && Enabled(s, Handle(p, h))
    ensures Final(s, Moved(s, Handle(p, h)), x)
  {
    TiedPlaced(s, p);
    match s[p].inbox[0] {
      case Suspend => WaveFinal(s, p, h, x);
      case Resume => WaveFinal(s, p, h, x);
      case Kill => ReportFrame(PopHead(s, p), p, KILLED);
      case Create => ReportFrame(PopHead(s, p), p, h.error);
      case Stop => StopFinal(s, p, x);
      case Recreate(cause) => RecreateFinal(s, p, cause, h, x);
      case Failure(child, cause) => FailureFinal(s, p, child, cause, h, x);
      case DeathWatchNotification(dead) => NotificationFinal(s, p, dead, h, x);
      case _ =>
    }
  }

  lemma RecreateFinal(s: System, p: Pid, cause: Cause, h: Hooks, x: Pid)
    requires Tied(s) && Enabled(s, Handle(p, h)) && s[p].inbox[0] == Recreate(cause)
    ensures Final(s, Moved(s, Handle(p, h)), x)
  {
    var t := BeforeReason(s, p, h);
    SendEachFinal(s[p := s[p].(registry := ChildrenStopped(s[p].registry))], s[p].Children(), Stop, x);
    BeforeReasonAt(s, p, h, p);
    if Restarts(s[p], h) {
      RestartRegistryAfter(s, p, cause, h);
    RestartMoves(s, p, cause, h);
      FinishFinal(WithReason(t, p, cause), p, h.error, h.postRestart, x);
    }
  }

  /** No move brings an ended actor back or changes who the parent of anybody is. */
  lemma MoveFinal(s: System, m: Move, x: Pid)
    requires Tied(s) && Enabled(s, m)
    ensures Final(s, Moved(s, m), x)
  {
    match m {
      case Report(p, cause) => ReportFrame(s, p, cause);
      case Handle(p, h) => HandleFinal(s, p, h, x);
      case _ =>
    }
  }

  /** A move ends an open actor exactly when that actor handles a Stop without children or its last notification. */
  lemma MoveEnds(s: System, m: Move, x: Pid)
    requires Tied(s) && Enabled(s, m) && Open(s, x)
    ensures Open(Moved(s, m), x) <==> !EndsAt(s, m, x)
  {
    if EndsAt(s, m, x) {
      TiedPlaced(s, x);
      match s[x].inbox[0] {
        case Stop => TerminateFinal(PopHead(s, x), x, x);
        case DeathWatchNotification(dead) =>
          var u := s[x := s[x].(registry := Notified(s[x].registry, dead).0, inbox := s[x].inbox[1..])];
          assert PopHead(s[x := s[x].(registry := Notified(s[x].registry, dead).0)], x) == u;
          TerminateFinal(u, x, x);
      }
    } else {
      MoveAt(s, m, x);
    }
  }

  /** A new actor has its Create to handle, is watched by its parent and has nothing else behind it. */
  lemma SpawnBegins(s: System, p: Pid, x: Pid)
    requires Tied(s) && Enabled(s, SpawnChild(p, x))
    ensures var t := Moved(s, SpawnChild(p, x));
            && Open(t, x) && t[x].parent == Some(p) && t[x].inbox == [Create] && t[x].suspends == 0
            && t[x].watchers == [Watch(p, Supervision)] && Watched(t, p, x)
            && (t[p].Supervises(x) <==> !s[p].registry.children.Terminated?)
  {
    var a := s[p].registry.children;
    HasChildAppend(a.Entries(), Child(x, FRESH_STATS), x);
    assert [Child(x, FRESH_STATS)][0].pid == x;
  }
}
