/**
 A tree of actor cells that exchange system messages through first-in first-out
 inboxes: failure reports, suspend and resume waves, two-phase restart and stop.

 A step is one handler run to its end, with the user hooks as opaque outcomes. The
 message a handler works on leaves the inbox last, which gives the same state as
 removing it first, because handlers only append to inboxes.
 */
module Supervision {
  import opened Options
  import opened ChildRegistry
  import opened DeathWatch

  datatype FailedInfo = NotFailed | FailedBy(pid: Pid) | Fatal

  datatype SysMsg =
    | Stop | Kill | Create | Suspend | Resume
    | Recreate(cause: Cause)
    | Failure(child: Pid, cause: Cause)
    | StopChild(pid: Pid)
    | DeathWatchNotification(pid: Pid)
    | WatchFrom(pid: Pid)
    | UnwatchFrom(pid: Pid)

  datatype Cell = Cell(
    parent: Option<Pid>,
    registry: Registry,
    watchers: seq<Watch>,
    failed: FailedInfo,
    deferredCause: Option<Cause>,
    suspends: nat,
    stopped: bool,
    inbox: seq<SysMsg>)
  {
    function Children(): seq<Pid> { registry.children.Children() }

    predicate Supervises(p: Pid) { registry.children.Registered(p) }

    /** A restart waits for children to die. */
    function Deferred(): nat {
      if registry.children.Terminating? && registry.children.reason.Recreation? then 1 else 0
    }

    predicate IsSuspended() { suspends > 0 }
  }

  type System = map<Pid, Cell>

  predicate Open(s: System, p: Pid) { p in s && !s[p].stopped }

  // ---------- sending ----------

  function Send(s: System, to: Pid, m: SysMsg): (t: System)
    ensures t.Keys == s.Keys
  {
    if Open(s, to) then s[to := s[to].(inbox := s[to].inbox + [m])] else s
  }

  function SendEach(s: System, targets: seq<Pid>, m: SysMsg): (t: System)
    ensures t.Keys == s.Keys
  {
    if targets == [] then s
    else Send(SendEach(s, targets[..|targets| - 1], m), targets[|targets| - 1], m)
  }

  function NotifyEach(s: System, watchers: seq<Watch>, dead: Pid): (t: System)
    ensures t.Keys == s.Keys
  {
    if watchers == [] then s
    else Send(NotifyEach(s, watchers[..|watchers| - 1], dead), watchers[|watchers| - 1].pid, DeathWatchNotification(dead))
  }

  /** The message just handled leaves the inbox. */
  function PopHead(s: System, p: Pid): (t: System)
    ensures t.Keys == s.Keys
  {
    if p in s && s[p].inbox != [] then s[p := s[p].(inbox := s[p].inbox[1..])] else s
  }

  // ---------- the handlers ----------

  datatype Directive = RestartChild | StopThem | EscalateUp | ResumeChild

  datatype StrategyKind = OneForOne | AllForOne

  /** The cause a Kill reports. */
  const KILLED: Cause := 0

  /** Outcomes of the user hooks a handler may call, and the error of a failing one. */
  datatype Hooks = Hooks(
    preStart: bool,
    preRestart: bool,
    stopsChildren: bool,
    postRestart: bool,
    onChildFailed: bool,
    directive: Directive,
    kind: StrategyKind,
    stats: Stats,
    error: Cause)

  function ReportFailure(s: System, p: Pid, cause: Cause): System
    requires p in s
  {
    var failed := if s[p].failed.NotFailed? then FailedBy(p) else s[p].failed;
    var t := s[p := s[p].(suspends := s[p].suspends + 1, failed := failed)];
    var u := SendEach(t, s[p].Children(), Suspend);
    if s[p].parent.Some? && Open(s, s[p].parent.value)
    then Send(u, s[p].parent.value, Failure(p, cause))
    else Send(u, p, Stop)
  }

  function OnSuspend(s: System, p: Pid): System
    requires p in s && s[p].inbox != []
  {
    var t := s[p := s[p].(suspends := s[p].suspends + 1, inbox := s[p].inbox[1..])];
    SendEach(t, s[p].Children(), Suspend)
  }

  function OnResume(s: System, p: Pid): System
    requires p in s && s[p].inbox != []
  {
    var left := if s[p].suspends == 0 then 0 else s[p].suspends - 1;
    var t := s[p := s[p].(suspends := left, failed := NotFailed, inbox := s[p].inbox[1..])];
    SendEach(t, s[p].Children(), Resume)
  }

  /** The `stop_all_children` of `pre_restart`. */
  function StopAllChildren(s: System, p: Pid): System
    requires p in s
  {
    SendEach(s[p := s[p].(registry := ChildrenStopped(s[p].registry))], s[p].Children(), Stop)
  }

  /** `ok` is the outcome of `post_restart`, and `error` its error. */
  function FinishRecreate(s: System, p: Pid, error: Cause, ok: bool): System
    requires p in s
  {
    var left := if s[p].suspends == 0 then 0 else s[p].suspends - 1;
    var c := s[p].(deferredCause := None, suspends := left);
    if ok then s[p := c.(failed := NotFailed)]
    else ReportFailure(s[p := c.(failed := Fatal)], p, error)
  }

  function OnRecreate(s: System, p: Pid, cause: Cause, h: Hooks): System
    requires p in s
  {
    if s[p].failed.Fatal? then PopHead(s, p)
    else
      var t := PopHead(if h.stopsChildren then StopAllChildren(s, p) else s, p);
      if !h.preRestart then t
      else
        var (children, deferred) := SetReason(t[p].registry.children, Recreation(cause));
        var c := t[p].(deferredCause := Some(cause), registry := t[p].registry.(children := children));
        if deferred then t[p := c] else FinishRecreate(t[p := c], p, h.error, h.postRestart)
  }

  function FinishTerminate(s: System, p: Pid): System
    requires p in s
  {
    var t := NotifyEach(s[p := s[p].(stopped := true, watchers := [])], s[p].watchers, p);
    if s[p].parent.Some? && s[p].parent.value in s then
      var q := s[p].parent.value;
      t[q := t[q].(registry := Unregistered(t[q].registry, p))]
    else t
  }

  function OnStop(s: System, p: Pid): System
    requires p in s
  {
    var children, pids := s[p].registry.children, s[p].Children();
    var t := PopHead(s, p);
    if children.IsTerminating() then t
    else if pids == [] then FinishTerminate(t, p)
    else
      var marked := SetReason(MarkAll(children, pids), Termination).0;
      var c := t[p].(registry := t[p].registry.(children := marked), suspends := t[p].suspends + 1);
      SendEach(t[p := c], pids, Stop)
  }

  function OnStopChild(s: System, p: Pid, child: Pid): System
    requires p in s
  {
    var t, children := PopHead(s, p), s[p].registry.children;
    if !children.Registered(child) || children.IsTerminating() then t
    else Send(t[p := t[p].(registry := t[p].registry.(children := ShallDie(children, child)))], child, Stop)
  }

  function OnNotification(s: System, p: Pid, dead: Pid, h: Hooks): System
    requires p in s
  {
    var (r, change) := Notified(s[p].registry, dead);
    var t := PopHead(s[p := s[p].(registry := r)], p);
    match change
    case Some(Recreation(_)) => FinishRecreate(t, p, h.error, h.postRestart)
    case Some(Termination) => FinishTerminate(t, p)
    case _ => t
  }

  /** AllForOne siblings are suspended, and their children told to, before they restart. */
  function SuspendSiblings(s: System, targets: seq<Pid>, child: Pid): (t: System)
    ensures t.Keys == s.Keys
  {
    if targets == [] then s
    else
      var t, x := SuspendSiblings(s, targets[..|targets| - 1], child), targets[|targets| - 1];
      if x != child && Open(t, x) then SuspendSibling(t, x) else t
  }

  function SuspendSibling(s: System, x: Pid): (t: System)
    requires x in s
    ensures t.Keys == s.Keys
  {
    SendEach(s[x := s[x].(suspends := s[x].suspends + 1)], s[x].Children(), Suspend)
  }

  function ChildrenAfterFailure(children: Container, child: Pid, affected: seq<Pid>, directive: Directive, stats: Stats): Container {
    AfterFailure(children, child, stats, if directive.StopThem? then affected else [])
  }

  function Affected(children: Container, child: Pid, h: Hooks): seq<Pid> {
    if h.kind.OneForOne? then [child] else TouchStats(children, child, h.stats).Children()
  }

  function OnFailure(s: System, p: Pid, child: Pid, cause: Cause, h: Hooks): System
    requires p in s
  {
    var children := s[p].registry.children;
    var directive := if children.Terminated? then StopThem else h.directive;
    var affected := Affected(children, child, h);
    var next := ChildrenAfterFailure(children, child, affected, directive, h.stats);
    var t := s[p := s[p].(registry := s[p].registry.(children := next))];
    var u := PopHead(if h.onChildFailed then t else ReportFailure(t, p, h.error), p);
    Direct(u, p, child, cause, directive, affected)
  }

  function Direct(s: System, p: Pid, child: Pid, cause: Cause, directive: Directive, affected: seq<Pid>): System
    requires p in s
  {
    match directive
    case RestartChild =>
      var t := SendEach(SuspendSiblings(s, affected, child), affected, Recreate(cause));
      if forall x <- affected :: Open(s, x) then t else ReportFailure(t, p, cause)
    case StopThem => SendEach(s, affected, Stop)
    case EscalateUp => ReportFailure(SendEach(s, affected, Stop), p, cause)
    case ResumeChild => SendEach(s, affected, Resume)
  }

  // ---------- steps ----------

  function NewCell(p: Pid): Cell {
    Cell(Some(p), Registry(Empty, []), [Watch(p, Supervision)], NotFailed, None, 0, false, [Create])
  }

  function Spawn(s: System, p: Pid, x: Pid): System
    requires p in s
  {
    var r := Registry(AddChild(s[p].registry.children, x), WithWatch(s[p].registry.watching, Watch(x, Supervision)));
    s[x := NewCell(p)][p := s[p].(registry := r)]
  }

  /** One step of the system. */
  datatype Move =
    | Report(pid: Pid, cause: Cause)
    | SpawnChild(pid: Pid, child: Pid)
    | External(pid: Pid, msg: SysMsg)
    | Handle(pid: Pid, hooks: Hooks)

  function OnMessage(s: System, p: Pid, m: SysMsg, h: Hooks): System
    requires p in s && s[p].inbox != []
  {
    match m
    case Suspend => OnSuspend(s, p)
    case Resume => OnResume(s, p)
    case Recreate(cause) => OnRecreate(s, p, cause, h)
    case Failure(child, cause) => OnFailure(s, p, child, cause, h)
    case Stop => OnStop(s, p)
    case Kill => ReportFailure(PopHead(s, p), p, KILLED)
    case Create => if h.preStart then PopHead(s, p) else ReportFailure(PopHead(s, p), p, h.error)
    case StopChild(child) => OnStopChild(s, p, child)
    case DeathWatchNotification(dead) => OnNotification(s, p, dead, h)
    case WatchFrom(w) => WithWatchers(PopHead(s, p), p, WithWatch(s[p].watchers, Watch(w, User)))
    case UnwatchFrom(w) => WithWatchers(PopHead(s, p), p, Retained(s[p].watchers, w, Some(User)))
  }

  function WithWatchers(s: System, p: Pid, watchers: seq<Watch>): System
    requires p in s
  {
    s[p := s[p].(watchers := watchers)]
  }

  predicate Enabled(s: System, m: Move) {
    && Open(s, m.pid)
    && (m.SpawnChild? ==> m.child !in s && m.pid < m.child)
    && (m.Handle? ==> s[m.pid].inbox != [])
  }

  function Moved(s: System, m: Move): System
    requires Enabled(s, m)
  {
    match m
    case Report(p, cause) => ReportFailure(s, p, cause)
    case SpawnChild(p, x) => Spawn(s, p, x)
    case External(p, msg) => Send(s, p, msg)
    case Handle(p, h) => OnMessage(s, p, s[p].inbox[0], h)
  }

  const ROOT: System := map[0 := Cell(None, Registry(Empty, []), [], NotFailed, None, 0, false, [])]

  /** Move `i` is enabled and leads to the next state. */
  ghost predicate Happens(states: seq<System>, moves: seq<Move>, i: nat) {
    i < |moves| && i + 1 < |states| && Enabled(states[i], moves[i]) && states[i + 1] == Moved(states[i], moves[i])
  }

  ghost predicate IsHistory(states: seq<System>, moves: seq<Move>) {
    && |states| == |moves| + 1
    && states[0] == ROOT
    && (forall i {:trigger Happens(states, moves, i)} :: 0 <= i < |moves| ==> Happens(states, moves, i))
  }
}
