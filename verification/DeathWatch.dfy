/**
 Watch bookkeeping of an actor cell and the completion of a deferred restart or stop
 when the children it waits for have died.
 */
module DeathWatch {
  import opened Options
  import opened ChildRegistry

  type Message = nat

  datatype WatchKind = User | Supervision

  datatype Watch = Watch(pid: Pid, kind: WatchKind)

  predicate Watches(watching: seq<Watch>, pid: Pid) {
    exists i :: 0 <= i < |watching| && watching[i].pid == pid
  }

  predicate Matches(w: Watch, pid: Pid, kind: Option<WatchKind>) {
    w.pid == pid && (kind.None? || w.kind == kind.value)
  }

  /** The entries left when those of `pid` (of one kind, or of any kind) are dropped. */
  function Retained(watching: seq<Watch>, pid: Pid, kind: Option<WatchKind>): (r: seq<Watch>)
    ensures forall w :: w in r <==> w in watching && !Matches(w, pid, kind)
  {
    if watching == [] then []
    else
      assert watching == watching[..|watching| - 1] + [watching[|watching| - 1]];
      var front, last := Retained(watching[..|watching| - 1], pid, kind), watching[|watching| - 1];
      if Matches(last, pid, kind) then front else front + [last]
  }

  // ---------- the part of a cell a notification acts on ----------

  datatype Registry = Registry(children: Container, watching: seq<Watch>)
  {
    /** Every registered child is under a supervision watch, as spawning installs it. */
    ghost predicate Supervised() {
      forall p :: children.Registered(p) ==> Watch(p, Supervision) in watching
    }
  }

  /** The locked section of a death-watch notification: what it leaves and the reason it reports. */
  function Notified(r: Registry, pid: Pid): (Registry, Option<SuspendReason>) {
    if !Watches(r.watching, pid) then (r, None)
    else
      var (children, change) := Remove(r.children, pid);
      (Registry(children, Retained(r.watching, pid, None)), change)
  }

  /** `unregister_child`: a pid still watched is left to its notification. */
  function Unregistered(r: Registry, pid: Pid): Registry {
    if Watches(r.watching, pid) then r else r.(children := Remove(r.children, pid).0)
  }

  function WithWatch(watching: seq<Watch>, w: Watch): seq<Watch> {
    if w in watching then watching else watching + [w]
  }

  function DropUserWatches(watching: seq<Watch>, pids: seq<Pid>): (r: seq<Watch>)
    ensures forall w: Watch :: w.kind.Supervision? ==> (w in r <==> w in watching)
  {
    if pids == [] then watching
    else Retained(DropUserWatches(watching, pids[..|pids| - 1]), pids[|pids| - 1], Some(User))
  }

  /** A report brings the statistics of its child up to date; a Stop directive removes children from a normal registry. */
  function AfterFailure(children: Container, child: Pid, stats: Stats, removed: seq<Pid>): Container {
    var touched := TouchStats(children, child, stats);
    if touched.InTerminatingVariant() then touched else RemoveEach(touched, removed)
  }

  // ---------- runs of a cell ----------

  /** What reaches a cell and acts on its registry, also while it waits for children to die. */
  datatype Event =
    | Notification(pid: Pid)
    | ChildLeft(pid: Pid)
    | ChildSpawned(pid: Pid)
    | ChildFailed(pid: Pid, stats: Stats, removed: seq<Pid>)
    | StopOne(pid: Pid)
    | StopAll
    | StopChildren
    | Restart(cause: Cause)
    | UserWatch(pid: Pid)
    | UserUnwatch(pid: Pid)

  /** The registry after an event and the completion of a wait it drives, if any. */
  function Step(r: Registry, e: Event): (Registry, Option<SuspendReason>) {
    match e
    case Notification(p) => Notified(r, p)
    case ChildLeft(p) => (Unregistered(r, p), None)
    case ChildSpawned(p) => (Registry(AddChild(r.children, p), WithWatch(r.watching, Watch(p, Supervision))), None)
    case ChildFailed(p, stats, removed) => (r.(children := AfterFailure(r.children, p, stats, removed)), None)
    case StopOne(p) =>
      (if r.children.Registered(p) && !r.children.IsTerminating() then r.(children := ShallDie(r.children, p)) else r, None)
    case StopAll =>
      (if r.children.IsTerminating() then r
       else r.(children := SetReason(MarkAll(r.children, r.children.Children()), Termination).0), None)
    case StopChildren => (ChildrenStopped(r), None)
    case Restart(cause) => (r.(children := SetReason(r.children, Recreation(cause)).0), None)
    case UserWatch(p) => (r.(watching := WithWatch(r.watching, Watch(p, User))), None)
    case UserUnwatch(p) => (r.(watching := Retained(r.watching, p, Some(User))), None)
  }

  /** `stop_all_children`, as `pre_restart` calls it: children are marked, and user watches of them dropped. */
  function ChildrenStopped(r: Registry): Registry {
    var pids := r.children.Children();
    Registry(MarkAll(r.children, pids), DropUserWatches(r.watching, pids))
  }

  function After(r: Registry, es: seq<Event>): Registry {
    if es == [] then r else Step(After(r, es[..|es| - 1]), es[|es| - 1]).0
  }

  function CompletionAt(r: Registry, es: seq<Event>, k: nat): Option<SuspendReason>
    requires k < |es|
  {
    Step(After(r, es[..k]), es[k]).1
  }

  /** A child reports a failure only while the cell still watches it: its notification comes last. */
  ghost predicate Genuine(r: Registry, e: Event) {
    e.ChildFailed? ==> Watch(e.pid, Supervision) in r.watching
  }

  ghost predicate GenuineRun(r: Registry, es: seq<Event>) {
    if es == [] then r.children.Valid() && r.Supervised()
    else GenuineRun(r, es[..|es| - 1]) && Genuine(After(r, es[..|es| - 1]), es[|es| - 1])
  }

  lemma {:induction false} GenuinePrefix(r: Registry, es: seq<Event>, k: nat)
    requires GenuineRun(r, es) && k <= |es|
    ensures GenuineRun(r, es[..k]) && (k < |es| ==> Genuine(After(r, es[..k]), es[k]))
  {
    if k == |es| {
      assert es[..k] == es;
    } else if k < |es| - 1 {
      GenuinePrefix(r, es[..|es| - 1], k);
      assert es[..|es| - 1][..k] == es[..k];
    }
  }

  lemma {:induction false} RemoveStranger(s: Container, pid: Pid)
    requires s.Valid() && !s.Registered(pid)
    ensures Remove(s, pid) == (s, None)
  {
    if s.Normal? || s.Terminating? {
      WithoutStranger(s.c, pid);
    }
    if s.Terminating? {
      WithoutPidsStranger(s.toDie, pid);
    }
  }

  lemma {:induction false} WithoutStranger(c: seq<Child>, pid: Pid)
    requires !HasChild(c, pid)
    ensures Without(c, {pid}) == c
  {
    if c != [] {
      var front := c[..|c| - 1];
      assert forall i :: 0 <= i < |front| ==> front[i] == c[i];
      WithoutStranger(front, pid);
    }
  }

  lemma {:induction false} WithoutPidsStranger(s: seq<Pid>, pid: Pid)
    requires pid !in s
    ensures WithoutPids(s, {pid}) == s
  {
    if s != [] {
      WithoutPidsStranger(s[..|s| - 1], pid);
    }
  }

  lemma WatchesMember(watching: seq<Watch>, w: Watch)
    requires w in watching
    ensures Watches(watching, w.pid)
  {
    var i :| 0 <= i < |watching| && watching[i] == w;
  }

  lemma RemoveUnregisters(s: Container, pid: Pid)
    ensures forall p :: Remove(s, pid).0.Registered(p) ==> s.Registered(p) && p != pid
  {
    WithoutKeeps(s.Entries(), {pid});
  }

  lemma NotifiedKeeps(r: Registry, pid: Pid)
    requires r.children.Valid() && r.Supervised()
    ensures Notified(r, pid).0.Supervised() && Notified(r, pid).0.children.Valid()
    ensures (Notified(r, pid).0.children, Notified(r, pid).1) == Remove(r.children, pid)
  {
    if r.children.Registered(pid) {
      WatchesMember(r.watching, Watch(pid, Supervision));
    } else {
      RemoveStranger(r.children, pid);
    }
    StepKeepsValid(r.children, OpRemove(pid));
    RemoveUnregisters(r.children, pid);
  }

  lemma UnregisteredKeeps(r: Registry, pid: Pid)
    requires r.children.Valid() && r.Supervised()
    ensures Unregistered(r, pid) == r
  {
    if r.children.Registered(pid) {
      WatchesMember(r.watching, Watch(pid, Supervision));
    } else {
      RemoveStranger(r.children, pid);
    }
  }

  lemma AddRegisters(s: Container, pid: Pid)
    requires s.Valid()
    ensures AddChild(s, pid).Valid() && forall p :: AddChild(s, pid).Registered(p) ==> s.Registered(p) || p == pid
  {
    StepKeepsValid(s, OpAdd(pid));
    InsertKeeps(s.Entries(), pid);
  }

  lemma TouchRegisters(s: Container, pid: Pid, stats: Stats)
    requires s.Valid()
    ensures TouchStats(s, pid, stats).Valid()
    ensures forall p :: TouchStats(s, pid, stats).Registered(p) ==> s.Registered(p) || p == pid
  {
    StepKeepsValid(s, OpTouch(pid, stats));
    AddRegisters(s, pid);
    StatsKeep(AddChild(s, pid).Entries(), pid, stats);
  }

  lemma {:induction false} RemoveEachValid(s: Container, ps: seq<Pid>)
    requires s.Valid()
    ensures RemoveEach(s, ps).Valid() && forall p :: RemoveEach(s, ps).Registered(p) ==> s.Registered(p)
    ensures s.Empty? || s.Normal? ==> RemoveEach(s, ps).Empty? || RemoveEach(s, ps).Normal?
  {
    if ps != [] {
      var front, last := ps[..|ps| - 1], ps[|ps| - 1];
      RemoveEachValid(s, front);
      StepKeepsValid(RemoveEach(s, front), OpRemove(last));
      RemoveUnregisters(RemoveEach(s, front), last);
    }
  }

  lemma AfterFailureKeeps(s: Container, child: Pid, stats: Stats, removed: seq<Pid>)
    requires s.Valid()
    ensures var t := AfterFailure(s, child, stats, removed);
            && t.Valid() && (forall p :: t.Registered(p) ==> s.Registered(p) || p == child)
            && (t.Terminating? <==> s.Terminating?) && (t.Terminated? <==> s.Terminated?)
            && (s.Terminating? ==> t.toDie == s.toDie && t.reason == s.reason)
  {
    TouchRegisters(s, child, stats);
    if !TouchStats(s, child, stats).InTerminatingVariant() {
      RemoveEachValid(TouchStats(s, child, stats), removed);
    }
  }

  lemma {:induction false} RemoveEachExact(s: Container, ps: seq<Pid>, p: Pid)
    requires s.Empty? || s.Normal?
    ensures RemoveEach(s, ps).Empty? || RemoveEach(s, ps).Normal?
    ensures RemoveEach(s, ps).Registered(p) <==> s.Registered(p) && p !in ps
  {
    if ps != [] {
      var front, last := ps[..|ps| - 1], ps[|ps| - 1];
      RemoveEachExact(s, front, p);
      assert ps == front + [last];
      WithoutKeeps(RemoveEach(s, front).Entries(), {last});
    }
  }

  /**
   Who is registered after a failure: the children there were and the failed one, without those a
   Stop directive removes, and nobody is removed while children are waited for.
   */
  lemma AfterFailureExact(s: Container, child: Pid, stats: Stats, removed: seq<Pid>, p: Pid)
    requires !s.Terminated?
    ensures AfterFailure(s, child, stats, removed).Registered(p)
            <==> (s.Registered(p) || p == child) && (s.Terminating? || p !in removed)
  {
    var touched := TouchStats(s, child, stats);
    HasChildAppend(s.Entries(), Child(child, FRESH_STATS), p);
    assert HasChild(AddChild(s, child).Entries(), p) <==> s.Registered(p) || p == child by {
      if HasChild(s.Entries(), child) {
        assert AddChild(s, child).Entries() == s.Entries();
      } else {
        assert AddChild(s, child).Entries() == s.Entries() + [Child(child, FRESH_STATS)];
      }
    }
    StatsKeep(AddChild(s, child).Entries(), child, stats);
    assert touched.Registered(p) <==> s.Registered(p) || p == child;
    if !s.Terminating? {
      RemoveEachExact(touched, removed, p);
    }
  }

  lemma AllListed(s: Container)
    ensures forall p :: p in s.Children() <==> s.Registered(p)
  {
    forall p ensures p in s.Children() <==> s.Registered(p) {
      ChildrenListed(s, p);
    }
  }

  /** Every event keeps the registry valid and every child under its supervision watch. */
  lemma StepKeeps(r: Registry, e: Event)
    requires r.children.Valid() && r.Supervised() && Genuine(r, e)
    ensures Step(r, e).0.children.Valid() && Step(r, e).0.Supervised()
  {
    match e {
      case Notification(p) => NotifiedKeeps(r, p);
      case ChildLeft(p) => UnregisteredKeeps(r, p);
      case ChildSpawned(p) => AddRegisters(r.children, p);
      case ChildFailed(p, stats, removed) => AfterFailureKeeps(r.children, p, stats, removed);
      case StopOne(p) =>
        if r.children.Registered(p) {
          StepKeepsValid(r.children, OpShallDie(p));
        }
      case StopAll =>
        AllListed(r.children);
        MarkAllValid(r.children, r.children.Children());
        MarkAllKeeps(r.children, r.children.Children());
      case StopChildren =>
        AllListed(r.children);
        MarkAllValid(r.children, r.children.Children());
        MarkAllKeeps(r.children, r.children.Children());
      case Restart(_) =>
      case UserWatch(_) =>
      case UserUnwatch(_) =>
    }
  }

  lemma {:induction false} RunKeeps(r: Registry, es: seq<Event>, k: nat)
    requires GenuineRun(r, es) && k <= |es|
    ensures After(r, es[..k]).children.Valid() && After(r, es[..k]).Supervised()
  {
    if k == 0 {
      GenuinePrefix(r, es, 0);
    } else {
      RunKeeps(r, es, k - 1);
      AfterNext(r, es, k - 1);
      GenuinePrefix(r, es, k - 1);
      StepKeeps(After(r, es[..k - 1]), es[k - 1]);
    }
  }

  lemma AfterNext(r: Registry, es: seq<Event>, j: nat)
    requires j < |es|
    ensures After(r, es[..j + 1]) == Step(After(r, es[..j]), es[j]).0
  {
    assert es[..j + 1][..j] == es[..j];
  }

  // ---------- completion ----------

  /** The notification that leaves nobody to wait for. */
  ghost predicate IsLast(s: Container, e: Event) {
    e.Notification? && s.Terminating? && forall x <- s.toDie :: x == e.pid
  }

  lemma RemovalCompletes(s: Container, pid: Pid)
    requires s.Valid()
    ensures Remove(s, pid).1 == if IsLast(s, Notification(pid)) then Some(s.reason) else None
    ensures IsLast(s, Notification(pid)) ==> !Remove(s, pid).0.Terminating?
    ensures s.Terminating? && !IsLast(s, Notification(pid)) ==>
              var t := Remove(s, pid).0;
              && t.Terminating? && t.reason == s.reason
              && forall x :: x in t.toDie <==> x in s.toDie && x != pid
  {
    if s.Terminating? {
      WithoutPidsKeeps(s.toDie, {pid});
      var dying := WithoutPids(s.toDie, {pid});
      if dying != [] {
        assert dying[0] in dying;
      }
    }
  }

  lemma StepCompletes(r: Registry, e: Event)
    requires r.children.Valid() && r.Supervised()
    ensures Step(r, e).1 == if IsLast(r.children, e) then Some(r.children.reason) else None
    ensures IsLast(r.children, e) ==> !Step(r, e).0.children.Terminating?
  {
    if e.Notification? {
      NotifiedKeeps(r, e.pid);
      RemovalCompletes(r.children, e.pid);
    }
  }

  /**
   In every run an event completes a deferred restart or stop exactly when it is the
   notification of the only pid left among all those marked by then, with the reason
   then in force; the registry has then left Terminating.
   */
  lemma CompletesAtLast(r: Registry, es: seq<Event>, j: nat)
    requires GenuineRun(r, es) && j < |es|
    ensures var s := After(r, es[..j]).children;
            && CompletionAt(r, es, j) == (if IsLast(s, es[j]) then Some(s.reason) else None)
            && (IsLast(s, es[j]) ==> !After(r, es[..j + 1]).children.Terminating?)
  {
    RunKeeps(r, es, j);
    AfterNext(r, es, j);
    StepCompletes(After(r, es[..j]), es[j]);
  }

  /** No restart waits for children to die. */
  ghost predicate NotRestarting(s: Container) {
    s.Terminating? ==> !s.reason.Recreation?
  }

  lemma StepNotRestarting(r: Registry, e: Event)
    requires r.children.Valid() && r.Supervised() && NotRestarting(r.children) && !e.Restart?
    ensures NotRestarting(Step(r, e).0.children)
  {
    match e {
      case Notification(p) =>
        NotifiedKeeps(r, p);
        RemovalCompletes(r.children, p);
      case ChildLeft(p) => UnregisteredKeeps(r, p);
      case ChildFailed(p, stats, removed) => AfterFailureKeeps(r.children, p, stats, removed);
      case StopAll => MarkAllKeeps(r.children, r.children.Children());
      case StopChildren => MarkAllKeeps(r.children, r.children.Children());
      case _ =>
    }
  }

  /**
   No run completes a restart that was not set: without a Restart event, whoever was stopped on
   the way, as by a `pre_restart` that failed afterwards, no notification reports one.
   */
  lemma {:induction false} NoRestartUnlessSet(r: Registry, es: seq<Event>, j: nat)
    requires GenuineRun(r, es) && j < |es| && NotRestarting(r.children)
    requires forall i :: 0 <= i < j ==> !es[i].Restart?
    ensures NotRestarting(After(r, es[..j]).children)
    ensures CompletionAt(r, es, j).Some? ==> !CompletionAt(r, es, j).value.Recreation?
  {
    if j > 0 {
      NoRestartUnlessSet(r, es, j - 1);
      RunKeeps(r, es, j - 1);
      AfterNext(r, es, j - 1);
      StepNotRestarting(After(r, es[..j - 1]), es[j - 1]);
    }
    CompletesAtLast(r, es, j);
  }

  // ---------- one wait, told by its events alone ----------

  /** The event marks `p` to die, in the registry it finds. */
  ghost predicate Marks(s: Container, e: Event, p: Pid) {
    match e
    case StopOne(q) => q == p && s.Registered(p) && !s.IsTerminating()
    case StopAll => s.Registered(p) && !s.IsTerminating()
    case StopChildren => s.Registered(p)
    case _ => false
  }

  ghost predicate MarkedAt(r: Registry, es: seq<Event>, i: nat, p: Pid)
    requires i < |es|
  {
    Marks(After(r, es[..i]).children, es[i], p)
  }

  /** `p` had to die at the start, or was marked later, and has not been notified since. */
  ghost predicate Owed(r: Registry, es: seq<Event>, p: Pid) {
    || (r.children.Terminating? && p in r.children.toDie && Notification(p) !in es)
    || (exists i :: 0 <= i < |es| && MarkedAt(r, es, i, p) && Notification(p) !in es[i + 1..])
  }

  ghost predicate SomeoneOwed(r: Registry, es: seq<Event>) {
    exists p :: Owed(r, es, p)
  }

  /** The reason in force after `es`: the last one set. */
  function LastReason(reason: SuspendReason, es: seq<Event>): SuspendReason {
    if es == [] then reason
    else
      match es[|es| - 1]
      case StopAll => Termination
      case Restart(cause) => Recreation(cause)
      case _ => LastReason(reason, es[..|es| - 1])
  }

  ghost predicate Waiting(r: Registry) {
    r.children.Terminating? && r.children.Valid() && r.Supervised()
  }

  lemma OwedNext(r: Registry, es: seq<Event>, e: Event, p: Pid)
    ensures Owed(r, es + [e], p) <==> (Owed(r, es, p) || Marks(After(r, es).children, e, p)) && e != Notification(p)
  {
    var fs, n := es + [e], |es|;
    assert fs[..n] == es && fs[n + 1..] == [];
    assert Notification(p) in fs <==> Notification(p) in es || e == Notification(p);
    forall i | 0 <= i < n
      ensures MarkedAt(r, fs, i, p) <==> MarkedAt(r, es, i, p)
      ensures Notification(p) in fs[i + 1..] <==> Notification(p) in es[i + 1..] || e == Notification(p)
    {
      assert fs[..i] == es[..i] && fs[i + 1..] == es[i + 1..] + [e];
    }
    assert MarkedAt(r, fs, n, p) <==> Marks(After(r, es).children, e, p);
    if Owed(r, es, p) && e != Notification(p) && !(r.children.Terminating? && p in r.children.toDie && Notification(p) !in es) {
      var i :| 0 <= i < |es| && MarkedAt(r, es, i, p) && Notification(p) !in es[i + 1..];
      assert MarkedAt(r, fs, i, p);
    }
  }

  /** How an event changes what a waiting registry waits for, and why. */
  lemma WaitingStep(r: Registry, e: Event)
    requires Waiting(r) && Genuine(r, e) && !IsLast(r.children, e)
    ensures var t := Step(r, e).0.children;
            && t.Terminating?
            && t.reason == (match e case StopAll => Termination case Restart(cause) => Recreation(cause) case _ => r.children.reason)
            && forall p :: p in t.toDie <==> (p in r.children.toDie || Marks(r.children, e, p)) && e != Notification(p)
  {
    var s := r.children;
    match e {
      case Notification(p) =>
        NotifiedKeeps(r, p);
        RemovalCompletes(s, p);
      case ChildLeft(p) => UnregisteredKeeps(r, p);
      case ChildFailed(p, stats, removed) => AfterFailureKeeps(s, p, stats, removed);
      case StopAll => MarkedChildren(s, s.Children());
      case StopChildren => MarkedChildren(s, s.Children());
      case _ =>
    }
  }

  lemma MarkedChildren(s: Container, pids: seq<Pid>)
    requires s.Terminating?
    ensures MarkAll(s, pids).Terminating? && MarkAll(s, pids).reason == s.reason
    ensures forall p :: p in MarkAll(s, pids).toDie <==> p in s.toDie || p in pids
    ensures forall p :: p in s.Children() <==> s.Registered(p)
  {
    AllListed(s);
    MarkAllKeeps(s, pids);
    forall p ensures p in MarkAll(s, pids).toDie <==> p in s.toDie || p in pids {
      MarkAllDying(s, pids, p);
    }
  }

  /** Up to `k`, somebody was owed all the time. */
  ghost predicate WaitsThrough(r: Registry, es: seq<Event>, k: nat)
    requires k <= |es|
  {
    forall i :: 0 <= i <= k ==> SomeoneOwed(r, es[..i])
  }

  /** As long as somebody is owed the cell waits, exactly for those, with the last reason set. */
  lemma {:induction false} WaitsForOwed(r: Registry, es: seq<Event>, k: nat)
    requires Waiting(r) && GenuineRun(r, es) && k <= |es| && WaitsThrough(r, es, k)
    ensures var s := After(r, es[..k]).children;
            && s.Terminating? && s.reason == LastReason(r.children.reason, es[..k])
            && forall p :: p in s.toDie <==> Owed(r, es[..k], p)
  {
    if k == 0 {
      assert es[..0] == [];
    } else {
      WaitsForOwed(r, es, k - 1);
      StillOwed(r, es, k - 1);
      assert es[..k][..k - 1] == es[..k - 1];
    }
  }

  /** One event on, when somebody is owed before and after it. */
  lemma StillOwed(r: Registry, es: seq<Event>, k: nat)
    requires GenuineRun(r, es) && k < |es| && SomeoneOwed(r, es[..k + 1])
    requires After(r, es[..k]).children.Terminating?
    requires forall p :: p in After(r, es[..k]).children.toDie <==> Owed(r, es[..k], p)
    ensures var s, t := After(r, es[..k]).children, After(r, es[..k + 1]).children;
            && t.Terminating? && (forall p :: p in t.toDie <==> Owed(r, es[..k + 1], p))
            && t.reason == (match es[k] case StopAll => Termination case Restart(cause) => Recreation(cause) case _ => s.reason)
  {
    RunKeeps(r, es, k);
    OwedAcross(r, es, k);
    var p :| Owed(r, es[..k + 1], p);
    GenuinePrefix(r, es, k);
    var w := After(r, es[..k]);
    assert !IsLast(w.children, es[k]);
    WaitingStep(w, es[k]);
    AfterNext(r, es, k);
  }

  lemma OwedAcross(r: Registry, es: seq<Event>, k: nat)
    requires k < |es|
    ensures forall p :: Owed(r, es[..k + 1], p) <==>
              (Owed(r, es[..k], p) || Marks(After(r, es[..k]).children, es[k], p)) && es[k] != Notification(p)
  {
    assert es[..k + 1] == es[..k] + [es[k]];
    forall p {
      OwedNext(r, es[..k], es[k], p);
    }
  }

  /**
   One wait completes exactly once: at the first event after which nobody is owed, for
   any arrival order, repeated notifications, children marked, spawned, failing or
   unregistered on the way, and with the last reason set, be it by a stop or a restart.
   */
  lemma CompletesExactlyOnce(r: Registry, es: seq<Event>, j: nat)
    requires Waiting(r) && GenuineRun(r, es) && j < |es| && WaitsThrough(r, es, j)
    ensures CompletionAt(r, es, j)
            == if SomeoneOwed(r, es[..j + 1]) then None else Some(LastReason(r.children.reason, es[..j]))
    ensures After(r, es[..j + 1]).children.Terminating? <==> SomeoneOwed(r, es[..j + 1])
  {
    WaitsForOwed(r, es, j);
    CompletesAtLast(r, es, j);
    if SomeoneOwed(r, es[..j + 1]) {
      StillOwed(r, es, j);
    } else {
      NobodyOwed(r, es, j);
    }
  }

  lemma NobodyOwed(r: Registry, es: seq<Event>, j: nat)
    requires GenuineRun(r, es) && j < |es| && !SomeoneOwed(r, es[..j + 1])
    requires After(r, es[..j]).children.Terminating?
    requires forall p :: p in After(r, es[..j]).children.toDie <==> Owed(r, es[..j], p)
    ensures IsLast(After(r, es[..j]).children, es[j])
  {
    RunKeeps(r, es, j);
    OwedAcross(r, es, j);
    var s := After(r, es[..j]).children;
    forall x | x in s.toDie ensures es[j] == Notification(x) {
      assert !Owed(r, es[..j + 1], x);
    }
    assert s.toDie[0] in s.toDie;
  }

  /** Between two completions a new wait began: some event marked a child. */
  lemma NewWaitBetween(r: Registry, es: seq<Event>, i: nat, j: nat) returns (k: nat, p: Pid)
    requires GenuineRun(r, es) && i < j < |es|
    requires CompletionAt(r, es, i).Some? && CompletionAt(r, es, j).Some?
    ensures i < k < j && MarkedAt(r, es, k, p)
  {
    CompletesAtLast(r, es, i);
    CompletesAtLast(r, es, j);
    var waits := seq(j + 1, n requires 0 <= n <= j => After(r, es[..n]).children.Terminating?);
    k := Rises(waits, i + 1, j);
    p := MarkFound(r, es, k);
  }

  lemma {:induction false} Rises(flags: seq<bool>, i: nat, j: nat) returns (k: nat)
    requires i <= j < |flags| && !flags[i] && flags[j]
    ensures i <= k < j && !flags[k] && flags[k + 1]
    decreases j - i
  {
    if flags[i + 1] {
      k := i;
    } else {
      k := Rises(flags, i + 1, j);
    }
  }

  lemma MarkFound(r: Registry, es: seq<Event>, i: nat) returns (p: Pid)
    requires GenuineRun(r, es) && i < |es|
    requires !After(r, es[..i]).children.Terminating? && After(r, es[..i + 1]).children.Terminating?
    ensures MarkedAt(r, es, i, p)
  {
    AfterNext(r, es, i);
    RunKeeps(r, es, i);
    p := BeginsWait(After(r, es[..i]), es[i]);
  }

  lemma BeginsWait(r: Registry, e: Event) returns (p: Pid)
    requires r.children.Valid() && r.Supervised()
    requires !r.children.Terminating? && Step(r, e).0.children.Terminating?
    ensures Marks(r.children, e, p)
  {
    var s := r.children;
    match e {
      case Notification(q) => NotifiedKeeps(r, q);
      case ChildLeft(q) => UnregisteredKeeps(r, q);
      case ChildFailed(q, stats, removed) => AfterFailureKeeps(s, q, stats, removed);
      case StopOne(q) => p := q;
      case StopAll =>
        AllListed(s);
        p := s.Children()[0];
      case StopChildren =>
        AllListed(s);
        p := s.Children()[0];
      case _ =>
    }
  }

  /** The unsupervised registry the code comment warns of: the reason is swallowed by `unregister_child`. */
  lemma UnsupervisedLosesReason(pid: Pid, cause: Cause)
    ensures var r := Registry(Terminating([Child(pid, FRESH_STATS)], [pid], Recreation(cause)), []);
            && r.children.Valid() && !r.Supervised()
            && After(r, [ChildLeft(pid), Notification(pid)]).children == Empty
            && CompletionAt(r, [ChildLeft(pid), Notification(pid)], 0) == None
            && CompletionAt(r, [ChildLeft(pid), Notification(pid)], 1) == None
  {
    var c := [Child(pid, FRESH_STATS)];
    var r := Registry(Terminating(c, [pid], Recreation(cause)), []);
    var es := [ChildLeft(pid), Notification(pid)];
    assert c[0].pid == pid && r.children.Registered(pid);
    RemoveOnly(pid, cause);
    assert es[..0] == [] && es[..2] == es;
    AfterNext(r, es, 0);
    AfterNext(r, es, 1);
    assert Step(r, es[0]) == (Registry(Empty, []), None);
    assert Step(Registry(Empty, []), es[1]) == (Registry(Empty, []), None);
  }

  lemma RemoveOnly(pid: Pid, cause: Cause)
    ensures Remove(Terminating([Child(pid, FRESH_STATS)], [pid], Recreation(cause)), pid) == (Empty, Some(Recreation(cause)))
  {
    var c, d := [Child(pid, FRESH_STATS)], [pid];
    assert c[..0] == [] && d[..0] == [];
    assert Without(c, {pid}) == Without(c[..0], {pid}) && WithoutPids(d, {pid}) == WithoutPids(d[..0], {pid});
  }
}
