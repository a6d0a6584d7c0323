/**
 The actor cell as a mutable object: user and supervision watches, custom watch
 messages, death-watch notifications, two-phase restart and two-phase stop.

 `Valid` is the invariant every operation keeps, so it holds over every run of calls;
 it makes the assertions in the code provable where they stand.
 */
module ActorCells {
  import opened Options
  import opened Lists
  import opened ChildRegistry
  import opened DeathWatch

  datatype Notice = Notice(pid: Pid, message: Message)

  datatype SendOutcome = Sent | Closed | Failed

  datatype WatchConflict = WatchWithThenPlain | PlainThenWatchWith | WatchWithThenWatchWith

  datatype WatchResult = Accepted | Duplicate(conflict: WatchConflict) | SendFailed

  datatype RegistrationKind = NotWatched | Plain | WithMessage

  /** What the user sees of a termination: the callback, or the message given to `watch_with`. */
  datatype Delivery = Callback(pid: Pid) | Custom(message: Message)

  datatype Completion = NoCompletion | Recreated(cause: Cause) | Stopped

  /** User watches as one map from watched pid to optional message. */
  type UserWatchMap = map<Pid, Option<Message>>

  ghost function UserPids(watching: seq<Watch>): (r: set<Pid>)
    ensures forall p :: p in r <==> Watch(p, User) in watching
  {
    set w | w in watching && w.kind.User? :: w.pid
  }

  ghost function SupervisedPids(watching: seq<Watch>): set<Pid> {
    set w | w in watching && w.kind.Supervision? :: w.pid
  }

  function NoticeFor(notices: seq<Notice>, pid: Pid): Option<Message> {
    if notices == [] then None
    else if notices[|notices| - 1].pid == pid then Some(notices[|notices| - 1].message)
    else NoticeFor(notices[..|notices| - 1], pid)
  }

  predicate HasNotice(notices: seq<Notice>, pid: Pid) {
    exists i :: 0 <= i < |notices| && notices[i].pid == pid
  }

  ghost predicate UniqueNotices(notices: seq<Notice>) {
    forall i, j :: 0 <= i < j < |notices| ==> notices[i].pid != notices[j].pid
  }

  ghost function UserWatchesOf(watching: seq<Watch>, notices: seq<Notice>): UserWatchMap {
    map p | p in UserPids(watching) :: NoticeFor(notices, p)
  }

  ghost predicate WatchesConsistent(watching: seq<Watch>, notices: seq<Notice>) {
    && UniqueNotices(notices)
    && (forall n <- notices :: n.pid in UserPids(watching))
  }

  ghost function ToPlain(m: UserWatchMap): UserWatchMap {
    map p | p in m :: None
  }

  // ---------- notices ----------

  lemma {:induction false} NoticeUnique(notices: seq<Notice>, i: nat)
    requires UniqueNotices(notices) && i < |notices|
    ensures NoticeFor(notices, notices[i].pid) == Some(notices[i].message)
  {
    if i < |notices| - 1 {
      NoticeUnique(notices[..|notices| - 1], i);
    }
  }

  lemma {:induction false} NoticeAbsent(notices: seq<Notice>, pid: Pid)
    ensures NoticeFor(notices, pid).None? <==> !HasNotice(notices, pid)
  {
    if notices != [] {
      var front := notices[..|notices| - 1];
      NoticeAbsent(front, pid);
      assert forall i :: 0 <= i < |front| ==> front[i] == notices[i];
      assert notices[|notices| - 1].pid == pid ==> HasNotice(notices, pid);
    }
  }

  /** Lists with unique keys and the same entries look up alike. */
  lemma NoticesAgree(a: seq<Notice>, b: seq<Notice>, pid: Pid)
    requires UniqueNotices(a) && UniqueNotices(b)
    requires forall n: Notice :: n.pid == pid ==> (n in a <==> n in b)
    ensures NoticeFor(a, pid) == NoticeFor(b, pid)
  {
    NoticeAbsent(a, pid);
    NoticeAbsent(b, pid);
    if HasNotice(a, pid) {
      var i :| 0 <= i < |a| && a[i].pid == pid;
      NoticeUnique(a, i);
      assert a[i] in b;
      var j :| 0 <= j < |b| && b[j] == a[i];
      NoticeUnique(b, j);
    }
  }

  function WithoutNotice(notices: seq<Notice>, pid: Pid): (r: seq<Notice>)
    ensures forall n :: n in r <==> n in notices && n.pid != pid
    ensures !HasNotice(notices, pid) ==> r == notices
  {
    if notices == [] then []
    else
      var front, last := notices[..|notices| - 1], notices[|notices| - 1];
      assert notices == front + [last];
      if last.pid == pid then WithoutNotice(front, pid) else WithoutNotice(front, pid) + [last]
  }

  lemma {:induction false} WithoutNoticeUnique(notices: seq<Notice>, pid: Pid)
    requires UniqueNotices(notices)
    ensures UniqueNotices(WithoutNotice(notices, pid))
  {
    if notices != [] {
      var front, last := notices[..|notices| - 1], notices[|notices| - 1];
      WithoutNoticeUnique(front, pid);
      var r := WithoutNotice(front, pid);
      forall i | 0 <= i < |r| ensures r[i].pid != last.pid {
        assert r[i] in front;
      }
    }
  }

  method RetainNotices(notices: seq<Notice>, pid: Pid) returns (r: seq<Notice>)
    ensures r == WithoutNotice(notices, pid)
  {
    r := [];
    for i := 0 to |notices|
      invariant r == WithoutNotice(notices[..i], pid)
    {
      assert notices[..i + 1][..i] == notices[..i];
      if notices[i].pid != pid {
        r := r + [notices[i]];
      }
    }
    assert notices[..|notices|] == notices;
  }

  method TakeNotice(notices: seq<Notice>, pid: Pid) returns (message: Option<Message>, r: seq<Notice>)
    requires UniqueNotices(notices)
    ensures message == NoticeFor(notices, pid)
    ensures UniqueNotices(r)
    ensures forall n :: n in r <==> n in notices && n.pid != pid
  {
    var i := 0;
    while i < |notices| && notices[i].pid != pid
      invariant 0 <= i <= |notices|
      invariant forall j :: 0 <= j < i ==> notices[j].pid != pid
    {
      i := i + 1;
    }
    NoticeAbsent(notices, pid);
    if i == |notices| {
      return None, notices;
    }
    NoticeUnique(notices, i);
    message := Some(notices[i].message);
    SwapRemoveNotice(notices, i);
    r := SwapRemove(notices, i);
  }

  lemma SwapRemoveNotice(notices: seq<Notice>, i: nat)
    requires UniqueNotices(notices) && i < |notices|
    ensures UniqueNotices(SwapRemove(notices, i))
    ensures forall n :: n in SwapRemove(notices, i) <==> n in notices && n.pid != notices[i].pid
  {
    var last, r := |notices| - 1, SwapRemove(notices, i);
    assert forall k :: 0 <= k < last ==> r[k] == if k == i then notices[last] else notices[k];
    assert forall k :: 0 <= k < |notices| && k != i ==> notices[k] == if k == last then r[i] else r[k];
  }

  method RetainWatches(watching: seq<Watch>, pid: Pid, kind: Option<WatchKind>) returns (r: seq<Watch>)
    ensures r == Retained(watching, pid, kind)
  {
    r := [];
    for i := 0 to |watching|
      invariant r == Retained(watching[..i], pid, kind)
    {
      assert watching[..i + 1][..i] == watching[..i];
      if !Matches(watching[i], pid, kind) {
        r := r + [watching[i]];
      }
    }
    assert watching[..|watching|] == watching;
  }

  lemma {:induction false} RetainedStranger(watching: seq<Watch>, pid: Pid, kind: WatchKind)
    requires Watch(pid, kind) !in watching
    ensures Retained(watching, pid, Some(kind)) == watching
  {
    if watching != [] {
      RetainedStranger(watching[..|watching| - 1], pid, kind);
    }
  }

  /** A user watch more changes nothing for supervision. */
  lemma UserOnlyAppend(children: Container, watching: seq<Watch>, pid: Pid)
    ensures SupervisedPids(watching + [Watch(pid, User)]) == SupervisedPids(watching)
    ensures Registry(children, watching).Supervised() ==> Registry(children, watching + [Watch(pid, User)]).Supervised()
  {
  }

  lemma AccountMore(deliveries: multiset<Pid>, registrations: multiset<Pid>, watched: set<Pid>, pid: Pid)
    requires AccountedFor(deliveries, registrations, watched)
    ensures AccountedFor(deliveries, registrations + multiset{pid}, watched + {pid})
  {
  }

  /** Undoing `watch_with` for a target that had no user watch restores both lists. */
  lemma RollBackUndoes(watching: seq<Watch>, notices: seq<Notice>, pid: Pid, message: Message)
    requires Watch(pid, User) !in watching && !HasNotice(notices, pid)
    ensures Retained(watching, pid, Some(User)) == watching
    ensures WithoutNotice(notices + [Notice(pid, message)], pid) == notices
  {
    RetainedStranger(watching, pid, User);
    assert (notices + [Notice(pid, message)])[..|notices|] == notices;
  }

  /** Dropping a pid from both lists drops its key from the map. */
  lemma DropBoth(watching: seq<Watch>, notices: seq<Notice>, pid: Pid, kind: Option<WatchKind>, left: seq<Notice>)
    requires WatchesConsistent(watching, notices) && UniqueNotices(left)
    requires kind.None? || kind.value.User?
    requires forall n: Notice :: n in left <==> n in notices && n.pid != pid
    ensures WatchesConsistent(Retained(watching, pid, kind), left)
    ensures UserPids(Retained(watching, pid, kind)) == UserPids(watching) - {pid}
    ensures UserWatchesOf(Retained(watching, pid, kind), left) == UserWatchesOf(watching, notices) - {pid}
  {
    var rest := Retained(watching, pid, kind);
    assert forall p :: p in UserPids(rest) <==> Watch(p, User) in rest;
    assert forall p :: p in UserPids(watching) <==> Watch(p, User) in watching;
    forall p | p in UserPids(rest) ensures NoticeFor(left, p) == NoticeFor(notices, p) {
      NoticesAgree(left, notices, p);
    }
  }

  lemma NoNoticeUnwatched(watching: seq<Watch>, notices: seq<Notice>, pid: Pid)
    requires WatchesConsistent(watching, notices) && Watch(pid, User) !in watching
    ensures !HasNotice(notices, pid)
  {
    forall i | 0 <= i < |notices| ensures notices[i].pid != pid {
      assert notices[i] in notices;
    }
  }

  lemma NoticeAppend(notices: seq<Notice>, n: Notice, p: Pid)
    ensures NoticeFor(notices + [n], p) == if p == n.pid then Some(n.message) else NoticeFor(notices, p)
  {
    assert (notices + [n])[..|notices|] == notices;
  }

  /** Adding a plain user watch adds its key to the map. */
  lemma AddPlain(watching: seq<Watch>, notices: seq<Notice>, pid: Pid)
    requires WatchesConsistent(watching, notices) && Watch(pid, User) !in watching
    ensures var w := watching + [Watch(pid, User)];
            && WatchesConsistent(w, notices)
            && UserPids(w) == UserPids(watching) + {pid}
            && UserWatchesOf(w, notices) == UserWatchesOf(watching, notices)[pid := None]
  {
    var w := watching + [Watch(pid, User)];
    assert UserPids(w) == UserPids(watching) + {pid};
    NoNoticeUnwatched(watching, notices, pid);
    NoticeAbsent(notices, pid);
  }

  /** Adding a user watch with a message adds its key and message to the map. */
  lemma AddWithMessage(watching: seq<Watch>, notices: seq<Notice>, pid: Pid, message: Message)
    requires WatchesConsistent(watching, notices) && Watch(pid, User) !in watching
    ensures var w, n := watching + [Watch(pid, User)], notices + [Notice(pid, message)];
            && WatchesConsistent(w, n)
            && UserPids(w) == UserPids(watching) + {pid}
            && UserWatchesOf(w, n) == UserWatchesOf(watching, notices)[pid := Some(message)]
  {
    var w, n := watching + [Watch(pid, User)], notices + [Notice(pid, message)];
    assert UserPids(w) == UserPids(watching) + {pid};
    NoNoticeUnwatched(watching, notices, pid);
    forall p {
      NoticeAppend(notices, Notice(pid, message), p);
    }
  }

  // ---------- the cell ----------

  class ActorCell {
    const pid: Pid
    const children: ChildrenContainer
    var watching: seq<Watch>
    var watchers: seq<Watch>
    var terminatedQueued: seq<Pid>
    var watchWith: seq<Notice>
    var deferredCause: Option<Cause>
    var terminated: bool
    /** How often the user began to watch each pid, and was told of its end. */
    ghost var registrations: multiset<Pid>
    ghost var deliveries: multiset<Pid>

    ghost predicate Valid()
      reads this, children
    {
      Consistent() && (!terminated ==> !children.state.Terminated?)
    }

    ghost predicate Consistent()
      reads this, children
    {
      && WatchesConsistent(watching, watchWith)
      && terminatedQueued == []
      && children.state.Valid()
      && View().Supervised()
      && CauseStored(children.state, deferredCause)
      && Accounted()
    }

    /** No pid is reported to the user more often than the user began to watch it. */
    ghost predicate Accounted()
      reads this`deliveries, this`registrations, this`watching
    {
      AccountedFor(deliveries, registrations, UserPids(watching))
    }

    ghost function View(): Registry
      reads this`watching, children
    {
      Registry(children.state, watching)
    }

    ghost function UserWatches(): UserWatchMap
      reads this`watching, this`watchWith
    {
      UserWatchesOf(watching, watchWith)
    }

    constructor (pid: Pid)
      ensures Valid() && fresh(children) && this.pid == pid
      ensures UserWatches() == map[] && View() == Registry(Empty, []) && !terminated && watchers == []
      ensures registrations == multiset{} && deliveries == multiset{}
    {
      this.pid := pid;
      children := new ChildrenContainer();
      watching, watchers, terminatedQueued, watchWith := [], [], [], [];
      deferredCause, terminated := None, false;
      registrations, deliveries := multiset{}, multiset{};
    }

    method RegistrationKindOf(target: Pid) returns (kind: RegistrationKind)
      ensures kind.NotWatched? <==> target !in UserPids(watching)
      ensures kind.WithMessage? ==> NoticeFor(watchWith, target).Some?
      ensures kind.Plain? ==> NoticeFor(watchWith, target).None?
    {
      assert target in UserPids(watching) <==> Watch(target, User) in watching;
      NoticeAbsent(watchWith, target);
      if Watch(target, User) !in watching {
        return NotWatched;
      }
      return if HasNotice(watchWith, target) then WithMessage else Plain;
    }

    /** The body that `watch` and `watch_with` share; `told` is the death the cell tells itself of when the target is closed. */
    method WatchCore(target: Pid, outcome: SendOutcome) returns (r: WatchResult, told: Option<Pid>)
      modifies this`watching
      ensures target == pid || target in UserPids(old(watching)) ==> watching == old(watching)
      ensures target == pid ==> r == Accepted
      ensures target != pid && target in UserPids(old(watching)) ==>
                r == if NoticeFor(watchWith, target).Some? then Duplicate(WatchWithThenPlain) else Accepted
      ensures target != pid && target !in UserPids(old(watching)) ==>
                && r == (if outcome.Failed? then SendFailed else Accepted)
                && watching == old(watching) + (if outcome.Failed? then [] else [Watch(target, User)])
      ensures told == if target != pid && target !in UserPids(old(watching)) && outcome.Closed? then Some(target) else None
    {
      if target == pid {
        return Accepted, None;
      }
      var kind := RegistrationKindOf(target);
      match kind {
        case Plain => return Accepted, None;
        case WithMessage => return Duplicate(WatchWithThenPlain), None;
        case NotWatched =>
      }
      assert target in UserPids(watching) <==> Watch(target, User) in watching;
      ghost var before := watching;
      watching := watching + [Watch(target, User)];
      match outcome {
        case Sent => return Accepted, None;
        case Closed => return Accepted, Some(target);
        case Failed =>
          assert watching[..|watching| - 1] == before;
          RetainedStranger(before, target, User);
          watching := RetainWatches(watching, target, Some(User));
          assert before == before + [];
          return SendFailed, None;
      }
    }

    method WatchUser(target: Pid, outcome: SendOutcome) returns (r: WatchResult, told: Option<Pid>)
      requires Valid()
      modifies this`watching, this`watchWith, this`registrations
      ensures Valid()
      ensures UserWatches() == if r.Accepted? && target != pid && target !in old(UserWatches())
                               then old(UserWatches())[target := None] else old(UserWatches())
      ensures r.Duplicate? <==> target != pid && target in old(UserWatches()) && old(UserWatches())[target].Some?
      ensures r.SendFailed? <==> target != pid && target !in old(UserWatches()) && outcome.Failed?
      ensures told == if target != pid && target !in old(UserWatches()) && outcome.Closed? then Some(target) else None
      ensures registrations == old(registrations)
              + (if target in UserWatches() && target !in old(UserWatches()) then multiset{target} else multiset{})
      ensures SupervisedPids(watching) == old(SupervisedPids(watching))
    {
      ghost var before := watching;
      assert target in UserPids(before) <==> Watch(target, User) in before;
      r, told := WatchCore(target, outcome);
      assert before + [] == before;
      if watching != before {
        AddPlain(before, watchWith, target);
        UserOnlyAppend(children.state, before, target);
        AccountMore(deliveries, registrations, UserPids(before), target);
        registrations := registrations + multiset{target};
      }
    }

    method WatchWithMessage(target: Pid, message: Message, outcome: SendOutcome) returns (r: WatchResult, told: Option<Pid>)
      requires Valid()
      modifies this`watching, this`watchWith, this`registrations
      ensures Valid()
      ensures UserWatches() == if r.Accepted? && target != pid
                               then old(UserWatches())[target := Some(message)] else old(UserWatches())
      ensures r.Duplicate? <==> target != pid && target in old(UserWatches())
      ensures r.SendFailed? <==> target != pid && target !in old(UserWatches()) && outcome.Failed?
      ensures told == if target != pid && target !in old(UserWatches()) && outcome.Closed? then Some(target) else None
      ensures registrations == old(registrations)
              + (if target in UserWatches() && target !in old(UserWatches()) then multiset{target} else multiset{})
      ensures SupervisedPids(watching) == old(SupervisedPids(watching))
    {
      if target == pid {
        return Accepted, None;
      }
      var kind := RegistrationKindOf(target);
      match kind {
        case NotWatched => r, told := WatchFresh(target, message, outcome);
        case Plain => r, told := Duplicate(PlainThenWatchWith), None;
        case WithMessage => r, told := Duplicate(WatchWithThenWatchWith), None;
      }
    }

    /** `watch_with` for a target without a user watch: register both, send, roll back on failure. */
    method WatchFresh(target: Pid, message: Message, outcome: SendOutcome) returns (r: WatchResult, told: Option<Pid>)
      requires Valid() && target != pid && target !in UserPids(watching)
      modifies this`watching, this`watchWith, this`registrations
      ensures Valid()
      ensures r == (if outcome.Failed? then SendFailed else Accepted) && told == (if outcome.Closed? then Some(target) else None)
      ensures UserWatches() == if outcome.Failed? then old(UserWatches()) else old(UserWatches())[target := Some(message)]
      ensures registrations == old(registrations) + (if outcome.Failed? then multiset{} else multiset{target})
      ensures SupervisedPids(watching) == old(SupervisedPids(watching))
    {
      ghost var before, notices := watching, watchWith;
      NoNoticeUnwatched(before, notices, target);
      r, told := RegisterBoth(target, message, outcome);
      if r == Accepted {
        AddWithMessage(before, notices, target, message);
        UserOnlyAppend(children.state, before, target);
        AccountMore(deliveries, registrations, UserPids(before), target);
        registrations := registrations + multiset{target};
      }
    }

    method RegisterBoth(target: Pid, message: Message, outcome: SendOutcome) returns (r: WatchResult, told: Option<Pid>)
      requires target != pid && target !in UserPids(watching) && !HasNotice(watchWith, target)
      modifies this`watching, this`watchWith
      ensures r == (if outcome.Failed? then SendFailed else Accepted) && told == (if outcome.Closed? then Some(target) else None)
      ensures watching == if outcome.Failed? then old(watching) else old(watching) + [Watch(target, User)]
      ensures watchWith == if outcome.Failed? then old(watchWith) else old(watchWith) + [Notice(target, message)]
    {
      ghost var before, notices := watching, watchWith;
      RegisterWatchWith(target, message);
      r, told := WatchCore(target, outcome);
      if r != Accepted {
        assert before + [] == before;
        RollBackUndoes(before, notices, target, message);
        RollBack(target);
      }
    }

    method RegisterWatchWith(target: Pid, message: Message)
      requires !HasNotice(watchWith, target)  // the assertion of register_watch_with
      modifies this`watchWith
      ensures watchWith == old(watchWith) + [Notice(target, message)]
    {
      watchWith := RetainNotices(watchWith, target);
      watchWith := watchWith + [Notice(target, message)];
    }

    method RollBack(target: Pid)
      modifies this`watchWith, this`watching
      ensures watchWith == WithoutNotice(old(watchWith), target)
      ensures watching == Retained(old(watching), target, Some(User))
    {
      watchWith := RetainNotices(watchWith, target);
      watching := RetainWatches(watching, target, Some(User));
    }

    method Unwatch(target: Pid)
      requires Valid()
      modifies this`watching, this`watchWith
      ensures Valid()
      ensures UserWatches() == if target == pid then old(UserWatches()) else old(UserWatches()) - {target}
      ensures SupervisedPids(watching) == old(SupervisedPids(watching))
    {
      if target == pid {
        return;
      }
      DropUserWatch(target);
    }

    method DropUserWatch(target: Pid)
      requires Valid()
      modifies this`watching, this`watchWith
      ensures Valid() && children.state == old(children.state)
      ensures UserWatches() == old(UserWatches()) - {target}
      ensures SupervisedPids(watching) == old(SupervisedPids(watching))
    {
      ghost var left := WithoutNotice(watchWith, target);
      WithoutNoticeUnique(watchWith, target);
      DropBoth(watching, watchWith, target, Some(User), left);
      RollBack(target);
    }

    /** A child is registered together with its supervision watch. */
    method RegisterChild(child: Pid)
      requires Valid()
      modifies this`watching, children
      ensures Valid() && UserWatches() == old(UserWatches())
      ensures children.state == AddChild(old(children.state), child) && child in SupervisedPids(watching)
    {
      StepKeepsValid(children.state, OpAdd(child));
      InsertKeeps(children.state.Entries(), child);
      children.Add(child);
      ghost var before := watching;
      if Watch(child, Supervision) !in watching {
        watching := watching + [Watch(child, Supervision)];
      }
      assert UserPids(watching) == UserPids(before);
    }

    /** A child still watched is left to its notification; otherwise its entry goes. */
    method UnregisterChild(child: Pid)
      modifies children
      ensures View() == Unregistered(old(View()), child)
      ensures old(Valid()) ==> Valid() && children.state == old(children.state)
    {
      if Watches(watching, child) {
        return;
      }
      ghost var r := View();
      var _ := children.RemoveAndGetStateChange(child);
      if old(Valid()) {
        UnregisteredKeeps(r, child);
      }
    }

    /** A spawn that failed is undone: first the supervision watch goes, then the entry it protected. */
    method RollBackSpawn(child: Pid)
      requires Valid() && Watch(child, User) !in watching
      requires children.state.Terminating? ==> child !in children.state.toDie
      modifies this`watching, children
      ensures Valid() && UserWatches() == old(UserWatches())
      ensures children.state == Remove(old(children.state), child).0 && !children.state.Registered(child)
      ensures SupervisedPids(watching) == old(SupervisedPids(watching)) - {child}
    {
      ghost var before, state := watching, children.state;
      watching := RetainWatches(watching, child, Some(Supervision));
      DropSupervision(before, child);
      UnregisterChild(child);
      RemovedUnmarked(state, child);
    }

    /** The `stop_all_children` of the default `pre_restart`; the children to send Stop to are returned. */
    method StopAllChildren() returns (stopped: seq<Pid>)
      requires Valid() && !terminated
      modifies this`watching, this`watchWith, children
      ensures Valid() && stopped == old(children.state).Children()
      ensures children.state == MarkAll(old(children.state), stopped)
      ensures UserWatches() == old(UserWatches()) - PidSet(stopped)
      ensures SupervisedPids(watching) == old(SupervisedPids(watching))
    {
      stopped := children.state.Children();
      ghost var state0, map0 := children.state, UserWatches();
      assert MarkAll(state0, stopped[..0]) == state0;
      for i := 0 to |stopped|
        invariant Valid()
        invariant children.state == MarkAll(state0, stopped[..i])
        invariant children.state.Entries() == state0.Entries()
        invariant UserWatches() == DropAll(map0, stopped[..i])
        invariant SupervisedPids(watching) == old(SupervisedPids(watching))
      {
        assert stopped[..i + 1][..i] == stopped[..i];
        StopOne(stopped[i], i);
      }
      assert stopped[..|stopped|] == stopped;
      DropAllDrops(map0, stopped);
    }

    method StopOne(child: Pid, ghost i: nat)
      requires Valid() && !terminated && i < |children.state.Entries()| && children.state.Entries()[i].pid == child
      modifies this`watching, this`watchWith, children
      ensures Valid() && children.state == ShallDie(old(children.state), child)
      ensures children.state.Entries() == old(children.state).Entries()
      ensures UserWatches() == old(UserWatches()) - {child}
      ensures SupervisedPids(watching) == old(SupervisedPids(watching))
    {
      MarkDying(child);
      DropUserWatch(child);
    }

    method MarkDying(child: Pid)
      requires Valid() && !terminated && children.state.Registered(child)
      modifies children
      ensures Valid() && children.state == ShallDie(old(children.state), child)
      ensures children.state.Entries() == old(children.state).Entries()
    {
      StepKeepsValid(children.state, OpShallDie(child));
      children.MarkDying(child);
    }

    /** `None` when there is nobody to wait for, otherwise the children to send Stop to. */
    method MarkChildrenForTermination() returns (r: Option<seq<Pid>>)
      requires Valid() && !terminated
      modifies children
      ensures Valid()
      ensures r.None? <==> old(children.state).Children() == []
      ensures r.None? || old(children.state).IsTerminating() ==> children.state == old(children.state)
      ensures r.Some? && old(children.state).IsTerminating() ==> r.value == []
      ensures r.Some? && !old(children.state).IsTerminating() ==>
                && r.value == old(children.state).Children() != []
                && children.state.IsTerminating() && children.state.Entries() == old(children.state).Entries()
                && (forall p <- r.value :: p in children.state.toDie)
    {
      if children.state.IsTerminating() {
        assert HasChild(children.state.c, children.state.toDie[0]);
        return Some([]);
      }
      var pids := children.state.Children();
      if pids == [] {
        return None;
      }
      for i := 0 to |pids|
        invariant Valid() && children.state.Entries() == old(children.state).Entries()
        invariant i > 0 ==> children.state.Terminating?
        invariant forall j :: 0 <= j < i ==> pids[j] in children.state.toDie
      {
        assert children.state.Entries()[i].pid == pids[i];
        MarkDying(pids[i]);
      }
      var updated := children.SetTerminationReason(Termination);
      assert updated;  // the children are Terminating after marking them
      return Some(pids);
    }

    method HandleStop() returns (stopped: seq<Pid>, completion: Completion, notified: seq<Pid>)
      requires Valid() && !terminated
      modifies this`terminated, this`watchers, children
      ensures Valid()
      ensures completion.Stopped? <==> old(children.state).Children() == []
      ensures !completion.Recreated? && (terminated <==> completion.Stopped?)
      ensures completion.NoCompletion? ==> children.state.IsTerminating()
      ensures stopped == if old(children.state).IsTerminating() then [] else old(children.state).Children()
      ensures notified == (if terminated then WatcherPids(old(watchers)) else [])
      ensures watchers == if terminated then [] else old(watchers)
    {
      var targets := MarkChildrenForTermination();
      if targets.Some? {
        return targets.value, NoCompletion, [];
      }
      notified := FinishTerminate();
      return [], Stopped, notified;
    }

    /** The end of the cell; the watchers to notify are returned, one entry for each watch. */
    method FinishTerminate() returns (notified: seq<Pid>)
      requires children.state.Children() == []  // the assertion of finish_terminate
      modifies this`terminated, this`watchers
      ensures terminated && watchers == [] && notified == WatcherPids(old(watchers))
    {
      terminated := true;
      notified := [];
      for i := 0 to |watchers|
        invariant notified == WatcherPids(watchers[..i])
      {
        assert watchers[..i + 1][..i] == watchers[..i];
        notified := notified + [watchers[i].pid];
      }
      assert watchers[..|watchers|] == watchers;
      watchers := [];
    }

    /** `true` when the watcher is to be told at once, because the cell has already ended. */
    method HandleWatch(watcher: Pid) returns (atOnce: bool)
      modifies this`watchers
      ensures atOnce == terminated
      ensures watchers == if terminated then old(watchers) else WithWatch(old(watchers), Watch(watcher, User))
    {
      if terminated {
        return true;
      }
      if Watch(watcher, User) !in watchers {
        watchers := watchers + [Watch(watcher, User)];
      }
      return false;
    }

    method HandleUnwatch(watcher: Pid)
      modifies this`watchers
      ensures watchers == Retained(old(watchers), watcher, Some(User))
      ensures SupervisedPids(watchers) == old(SupervisedPids(watchers))
    {
      ghost var before := watchers;
      watchers := RetainWatches(watchers, watcher, Some(User));
      forall p | p in SupervisedPids(before) ensures p in SupervisedPids(watchers) {
        assert Watch(p, Supervision) in watchers;
      }
    }

    /** The second phase of a restart. */
    method FinishRecreate(cause: Cause)
      requires Valid()
      requires !children.state.InTerminatingVariant()  // the assertion of finish_recreate
      modifies this`deferredCause, this`watchWith
      ensures Valid() && deferredCause == None
      ensures UserWatches() == ToPlain(old(UserWatches()))
    {
      deferredCause := None;
      watchWith := [];
    }

    /** The first phase of a restart; `stops` says whether `pre_restart` stops the children, `ok` whether it succeeds. */
    method FaultRecreate(cause: Cause, fatal: bool, stops: bool, ok: bool) returns (completion: Completion)
      requires Valid() && !terminated
      modifies this, children
      ensures Valid() && !terminated && watchers == old(watchers)
      ensures registrations == old(registrations) && deliveries == old(deliveries)
      ensures completion == Recreated(cause) || completion == NoCompletion
      ensures fatal ==> View() == old(View()) && UserWatches() == old(UserWatches()) && deferredCause == old(deferredCause)
      ensures !fatal ==>
                var kept := if stops then old(UserWatches()) - PidSet(old(children.state).Children()) else old(UserWatches());
                UserWatches() == if completion.Recreated? then ToPlain(kept) else kept
      ensures !fatal && ok ==>
                var a := old(children.state);
                children.state == SetReason(if stops then MarkAll(a, a.Children()) else a, Recreation(cause)).0
      ensures completion.Recreated? ==> !children.state.InTerminatingVariant()
      ensures !fatal && ok && completion.NoCompletion? ==>
                children.state.Terminating? && children.state.reason == Recreation(cause) && deferredCause == Some(cause)
      ensures !fatal && !ok ==>
                var a := old(children.state);
                && deferredCause == old(deferredCause) && (!stops ==> children.state == a)
                && UnderStops(a, children.state)
      ensures fatal || !ok ==> completion.NoCompletion?
      ensures !fatal && ok && stops && old(children.state).Children() != [] ==> completion.NoCompletion?
    {
      if fatal {
        return NoCompletion;
      }
      if stops {
        var pids := StopAllChildren();
        MarkAllTerminates(old(children.state), pids);
      }
      if !ok {
        MarkedUnderStops(old(children.state));
        return NoCompletion;
      }
      deferredCause := Some(cause);
      var deferred := children.SetTerminationReason(Recreation(cause));
      if deferred {
        return NoCompletion;
      }
      FinishRecreate(cause);
      return Recreated(cause);
    }

    /** A notification: user delivery, removal of the pid, and completion of what waited for it. */
    method HandleDeathWatchNotification(p: Pid) returns (delivery: Option<Delivery>, completion: Completion, notified: seq<Pid>)
      requires Valid() && !terminated
      modifies this, children
      ensures Valid()
      ensures View() == Notified(old(View()), p).0
      ensures completion == CompletionOf(Notified(old(View()), p).1)
      ensures terminated <==> completion.Stopped?
      ensures UserWatches() == if completion.Recreated? then ToPlain(old(UserWatches()) - {p}) else old(UserWatches()) - {p}
      ensures delivery == DeliveryOf(old(UserWatches()), p)
      ensures deliveries == old(deliveries) + (if delivery.Some? then multiset{p} else multiset{})
      ensures registrations == old(registrations)
      ensures notified == (if terminated then WatcherPids(old(watchers)) else [])
    {
      if !Watches(watching, p) || p in terminatedQueued {
        NeverWatched(watching, p);
        return None, NoCompletion, [];
      }
      NotificationKeepsCause(View(), p, deferredCause);
      var change: Option<SuspendReason>;
      delivery, change := ConsumeNotification(p);
      completion, notified := Complete(change);
    }

    method ConsumeNotification(p: Pid) returns (delivery: Option<Delivery>, change: Option<SuspendReason>)
      requires Valid() && !terminated && Watches(watching, p)
      modifies this`watching, this`terminatedQueued, this`watchWith, this`deliveries, children
      ensures Consistent() && (View(), change) == Notified(old(View()), p)
      ensures UserWatches() == old(UserWatches()) - {p}
      ensures delivery == DeliveryOf(old(UserWatches()), p)
      ensures deliveries == old(deliveries) + (if delivery.Some? then multiset{p} else multiset{})
    {
      NotificationKeepsCause(View(), p, deferredCause);
      ghost var next := Notified(View(), p).0;
      var hasUser;
      hasUser, change := BeginNotification(p);
      assert View() == next && CauseStored(children.state, deferredCause);
      delivery := DeliverTermination(p, hasUser, old(watching));
      terminatedQueued := RetainPids(terminatedQueued, p);
    }

    /** The locked section that consumes the notification. */
    method BeginNotification(p: Pid) returns (hasUser: bool, change: Option<SuspendReason>)
      requires Watches(watching, p)
      modifies this`watching, this`terminatedQueued, children
      ensures watching == Retained(old(watching), p, None)
      ensures terminatedQueued == old(terminatedQueued) + [p]
      ensures (View(), change) == Notified(old(View()), p)
      ensures hasUser <==> p in UserPids(old(watching))
    {
      hasUser := Watch(p, User) in watching;
      watching := RetainWatches(watching, p, None);
      terminatedQueued := terminatedQueued + [p];
      change := children.RemoveAndGetStateChange(p);
    }

    method DeliverTermination(p: Pid, hasUser: bool, ghost before: seq<Watch>) returns (delivery: Option<Delivery>)
      requires WatchesConsistent(before, watchWith) && watching == Retained(before, p, None)
      requires hasUser <==> p in UserPids(before)
      requires AccountedFor(deliveries, registrations, UserPids(before))
      modifies this`watchWith, this`deliveries
      ensures WatchesConsistent(watching, watchWith) && Accounted()
      ensures UserWatches() == UserWatchesOf(before, old(watchWith)) - {p}
      ensures delivery == DeliveryOf(UserWatchesOf(before, old(watchWith)), p)
      ensures deliveries == old(deliveries) + (if delivery.Some? then multiset{p} else multiset{})
    {
      if hasUser {
        var message, left := TakeNotice(watchWith, p);
        DropBoth(before, watchWith, p, None, left);
        watchWith := left;
        delivery := Some(if message.Some? then Custom(message.value) else Callback(p));
        deliveries := deliveries + multiset{p};
      } else {
        WithoutNoticeUnique(watchWith, p);
        DropBoth(before, watchWith, p, None, WithoutNotice(watchWith, p));
        watchWith := RetainNotices(watchWith, p);
        delivery := None;
      }
    }

    method Complete(change: Option<SuspendReason>) returns (completion: Completion, notified: seq<Pid>)
      requires Consistent()
      requires change.Some? && change.value.Recreation? ==>
                 deferredCause == Some(change.value.cause) && !children.state.InTerminatingVariant()
      requires children.state.Terminated? <==> change == Some(Termination)
      requires !terminated
      modifies this`terminated, this`deferredCause, this`watchWith, this`watchers
      ensures Valid() && completion == CompletionOf(change)
      ensures notified == (if terminated then WatcherPids(old(watchers)) else [])
      ensures terminated <==> completion.Stopped?
      ensures UserWatches() == if completion.Recreated? then ToPlain(old(UserWatches())) else old(UserWatches())
    {
      notified := [];
      match change {
        case Some(Recreation(cause)) =>
          assert deferredCause == None || deferredCause == Some(cause);  // the cause delivered is the one stored
          FinishRecreate(cause);
          completion := Recreated(cause);
        case Some(Termination) =>
          notified := FinishTerminate();
          completion := Stopped;
        case _ =>
          completion := NoCompletion;
      }
    }
  }

  function WatcherPids(watchers: seq<Watch>): seq<Pid> {
    if watchers == [] then [] else WatcherPids(watchers[..|watchers| - 1]) + [watchers[|watchers| - 1].pid]
  }

  /** Without its supervision watch, and with no user watch, a pid is not watched at all. */
  lemma DropSupervision(watching: seq<Watch>, pid: Pid)
    requires Watch(pid, User) !in watching
    ensures var left := Retained(watching, pid, Some(Supervision));
            && !Watches(left, pid) && UserPids(left) == UserPids(watching)
            && SupervisedPids(left) == SupervisedPids(watching) - {pid}
  {
    var left := Retained(watching, pid, Some(Supervision));
    forall i | 0 <= i < |left| ensures left[i].pid != pid {
      assert left[i] in left;
    }
    forall p | p in SupervisedPids(watching) && p != pid ensures p in SupervisedPids(left) {
      assert Watch(p, Supervision) in left;
    }
  }

  /** Removing a child nobody waits for changes nothing else. */
  lemma RemovedUnmarked(s: Container, pid: Pid)
    requires s.Valid() && (s.Terminating? ==> pid !in s.toDie)
    ensures var t := Remove(s, pid).0;
            && t.Valid() && !t.Registered(pid) && (forall p :: t.Registered(p) ==> s.Registered(p))
            && (t.Terminated? <==> s.Terminated?) && (t.Terminating? <==> s.Terminating?)
            && (s.Terminating? ==> t.reason == s.reason)
  {
    StepKeepsValid(s, OpRemove(pid));
    RemoveUnregisters(s, pid);
    RemovalCompletes(s, pid);
  }

  ghost function DeliveryOf(watches: UserWatchMap, p: Pid): Option<Delivery> {
    if p !in watches then None
    else if watches[p].Some? then Some(Custom(watches[p].value))
    else Some(Callback(p))
  }

  ghost predicate AccountedFor(deliveries: multiset<Pid>, registrations: multiset<Pid>, watched: set<Pid>) {
    forall p :: deliveries[p] + (if p in watched then 1 else 0) <= registrations[p]
  }

  ghost predicate CauseStored(s: Container, deferred: Option<Cause>) {
    s.Terminating? && s.reason.Recreation? ==> deferred == Some(s.reason.cause)
  }

  lemma NotificationKeepsCause(r: Registry, p: Pid, deferred: Option<Cause>)
    requires r.children.Valid() && r.Supervised()
    requires CauseStored(r.children, deferred) && !r.children.Terminated?
    ensures var (next, change) := Notified(r, p);
            && next.children.Valid() && next.Supervised()
            && CauseStored(next.children, deferred)
            && (change.Some? && change.value.Recreation? ==>
                  deferred == Some(change.value.cause) && !next.children.InTerminatingVariant())
            && (next.children.Terminated? <==> change == Some(Termination))
  {
    NotifiedKeeps(r, p);
  }

  function CompletionOf(change: Option<SuspendReason>): Completion {
    match change
    case Some(Recreation(cause)) => Recreated(cause)
    case Some(Termination) => Stopped
    case _ => NoCompletion
  }

  ghost function DropAll(m: UserWatchMap, pids: seq<Pid>): UserWatchMap {
    if pids == [] then m else DropAll(m, pids[..|pids| - 1]) - {pids[|pids| - 1]}
  }

  lemma {:induction false} DropAllDrops(m: UserWatchMap, pids: seq<Pid>)
    ensures DropAll(m, pids) == m - PidSet(pids)
  {
    if pids != [] {
      DropAllDrops(m, pids[..|pids| - 1]);
      assert PidSet(pids) == PidSet(pids[..|pids| - 1]) + {pids[|pids| - 1]};
    }
  }

  /**
   What `stop_all_children` may do to a registry: a wait under way keeps its reason, and one
   that begins is on user request and for exactly the children there are.
   */
  ghost predicate UnderStops(a: Container, b: Container) {
    && b.Entries() == a.Entries()
    && (if a.Terminating? then b.Terminating? && b.reason == a.reason
        else b.Terminating? ==> b.reason == UserRequest && forall p :: p in b.toDie <==> a.Registered(p))
  }

  lemma MarkedUnderStops(a: Container)
    ensures UnderStops(a, a) && UnderStops(a, MarkAll(a, a.Children()))
  {
    var pids := a.Children();
    MarkAllKeeps(a, pids);
    AllListed(a);
    if !a.Terminating? && MarkAll(a, pids).Terminating? {
      MarkedNormal(a, pids);
      forall p ensures p in MarkAll(a, pids).toDie <==> a.Registered(p) {
        MarkAllDying(a, pids, p);
      }
    }
  }

  lemma {:induction false} MarkedNormal(a: Container, pids: seq<Pid>)
    requires !a.Terminating? && MarkAll(a, pids).Terminating?
    ensures a.Normal? && pids != []
  {
    if pids != [] && !a.Normal? {
      MarkedNormal(a, pids[..|pids| - 1]);
    }
  }

  lemma {:induction false} MarkAllTerminates(s: Container, pids: seq<Pid>)
    requires pids != [] ==> s.Normal? || s.Terminating?
    ensures pids != [] ==> MarkAll(s, pids).Terminating?
  {
    if |pids| > 1 {
      MarkAllTerminates(s, pids[..|pids| - 1]);
    }
  }

  lemma NeverWatched(watching: seq<Watch>, p: Pid)
    ensures !Watches(watching, p) ==> p !in UserPids(watching)
  {
    if p in UserPids(watching) {
      WatchesMember(watching, Watch(p, User));
    }
  }
}
