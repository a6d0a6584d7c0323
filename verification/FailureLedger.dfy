/**
 The books of failures: every failure an actor incurs is one report to its parent and one
 suspension, every report is answered once, and the answer is the one the directive names.
 */
module FailureLedger {
  import opened Options
  import opened Lists
  import opened ChildRegistry
  import opened DeathWatch
  import opened Supervision
  import opened SuspendCoverage
  import opened TreeWatch
  import opened TreeWaits
  import opened LocalView

  // ---------- counting ----------

  lemma {:induction false} CountBoth(a: seq<SysMsg>, b: seq<SysMsg>, x: Pid)
    ensures CountFailures(a + b, x) == CountFailures(a, x) + CountFailures(b, x)
  {
    if b == [] {
      assert a + b == a;
    } else {
      CountBoth(a, b[..|b| - 1], x);
      assert (a + b)[..|a + b| - 1] == a + b[..|b| - 1];
    }
  }

  lemma CountOne(m: SysMsg, x: Pid)
    ensures CountFailures([m], x) == if m.Failure? && m.child == x then 1 else 0
    ensures CountFailures([], x) == 0
  {
    CountFailuresAppend([], m, x);
    assert [] + [m] == [m];
  }

  lemma NoticesCount(watchers: seq<Watch>, q: Pid, dead: Pid, x: Pid)
    ensures CountFailures(Notices(watchers, q, dead), x) == 0
  {
    var notices := Notices(watchers, q, dead);
    NoticesAre(watchers, q, dead);
    forall k | 0 <= k < |notices| ensures !notices[k].Failure? {
      assert notices[k] in notices;
    }
    NoReports(notices, x);
  }

  /** The parent of `p` gets one report from a failure, and about nobody else. */
  lemma UpwardCount(s: System, p: Pid, r: Registry, cause: Cause, q: Pid, x: Pid)
    requires p in s && Open(s, q) && x in s && s[x].parent == Some(q)
    requires s[p].parent == Some(q) ==> !r.children.Registered(q)
    ensures CountFailures(Upward(s, p, r, cause, q), x) == if x == p then 1 else 0
  {
    CountOne(Suspend, x);
    CountOne(Stop, x);
    CountOne(Failure(p, cause), x);
  }

  lemma WhenCount(given: bool, mail: seq<SysMsg>, x: Pid)
    ensures CountFailures(When(given, mail), x) == if given then CountFailures(mail, x) else 0
  {
  }

  lemma UpwardCountWhen(given: bool, s: System, p: Pid, r: Registry, cause: Cause, q: Pid, x: Pid)
    requires p in s && Open(s, q) && x in s && s[x].parent == Some(q)
    requires s[p].parent == Some(q) ==> !r.children.Registered(q)
    ensures CountFailures(When(given, Upward(s, p, r, cause, q)), x) == if given && x == p then 1 else 0
  {
    UpwardCount(s, p, r, cause, q, x);
    WhenCount(given, Upward(s, p, r, cause, q), x);
  }

  lemma AnswerCountWhen(given: bool, m: SysMsg, x: Pid)
    requires !m.Failure?
    ensures CountFailures(When(given, [m]), x) == 0
  {
    CountOne(m, x);
    WhenCount(given, [m], x);
  }

  lemma CountFour(a: seq<SysMsg>, b: seq<SysMsg>, c: seq<SysMsg>, d: seq<SysMsg>, x: Pid, n: nat, k: nat)
    requires CountFailures(a, x) == n && CountFailures(b, x) == 0 && CountFailures(c, x) == 0 && CountFailures(d, x) == k
    ensures CountFailures(a + b + c + d, x) == n + k
  {
    CountBoth(a + b + c, d, x);
    CountBoth(a + b, c, x);
    CountBoth(a, b, x);
  }

  lemma FailureMailCount(s: System, p: Pid, child: Pid, cause: Cause, h: Hooks, r: Registry, q: Pid, x: Pid)
    requires p in s && Open(s, q) && x in s && s[x].parent == Some(q)
    requires s[p].parent == Some(q) ==> !r.children.Registered(q)
    ensures CountFailures(FailureMail(s, p, child, cause, h, r, q), x)
            == if x == p then |FailureCauses(s, p, child, cause, h)| else 0
  {
    var directive, affected := InForce(s[p], h), Affected(s[p].registry.children, child, h);
    var under, given := directive.RestartChild? && UnderSibling(s, affected, child, q), GivesUp(s, p, child, h);
    CausesCount(s, p, child, cause, h);
    UpwardCountWhen(!h.onChildFailed, s, p, r, h.error, q, x);
    AnswerCountWhen(under, Suspend, x);
    AnswerCountWhen(q in affected, AnswerOf(directive, cause), x);
    UpwardCountWhen(given, s, p, r, cause, q, x);
    CountFour(When(!h.onChildFailed, Upward(s, p, r, h.error, q)), When(under, [Suspend]),
              When(q in affected, [AnswerOf(directive, cause)]), When(given, Upward(s, p, r, cause, q)), x,
              if !h.onChildFailed && x == p then 1 else 0, if given && x == p then 1 else 0);
  }

  /** The supervisor of an actor is never among its own children. */
  lemma ParentNotBelow(s: System, m: Move, q: Pid)
    requires Tied(s) && Enabled(s, m) && Unforged(s, m) && s[m.pid].parent == Some(q)
    ensures !EndsAt(s, m, m.pid) ==> !RegistryAfter(s, m).children.Registered(q)
  {
    if !EndsAt(s, m, m.pid) {
      MoveKeepsTies(s, m);
      MoveAt(s, m, m.pid);
      TiedPlaced(Moved(s, m), m.pid);
      assert !Moved(s, m)[m.pid].Supervises(q);
    }
  }

  lemma MailCount(s: System, m: Move, q: Pid, x: Pid)
    requires Tied(s) && Enabled(s, m) && Unforged(s, m) && Open(s, q) && Open(s, x) && s[x].parent == Some(q)
    ensures CountFailures(Mail(s, m, q), x) == if x == m.pid then |Causes(s, m)| else 0
  {
    CountOne(Suspend, x);
    match m {
      case Report(p, cause) =>
        TiedPlaced(s, p);
        assert s[p].parent == Some(q) ==> !s[p].Supervises(q);
        UpwardCount(s, p, s[p].registry, cause, q, x);
      case SpawnChild(_, _) =>
      case External(_, msg) => CountOne(msg, x);
      case Handle(p, h) => HandlerMailCount(s, p, h, q, x);
    }
  }

  lemma HandlerMailCount(s: System, p: Pid, h: Hooks, q: Pid, x: Pid)
    requires Tied(s) && Enabled(s, Handle(p, h)) && Open(s, q) && Open(s, x) && s[x].parent == Some(q)
    ensures CountFailures(Mail(s, Handle(p, h), q), x) == if x == p then |Causes(s, Handle(p, h))| else 0
  {
    var c, r := s[p], RegistryAfter(s, Handle(p, h));
    CountOne(Suspend, x);
    CountOne(Resume, x);
    CountOne(Stop, x);
    NoticesCount(c.watchers, q, p, x);
    if !Ends(c) {
      if c.parent == Some(q) {
        ParentNotBelow(s, Handle(p, h), q);
      }
      UpwardCount(s, p, r, h.error, q, x);
      UpwardCount(s, p, r, KILLED, q, x);
      match c.inbox[0] {
        case Failure(child, cause) => FailureMailCount(s, p, child, cause, h, r, q, x);
        case Recreate(_) =>
          CountBoth(When(!c.failed.Fatal? && h.stopsChildren && c.Supervises(q), [Stop]),
                    When(Finishes(s, p, h) && !h.postRestart, Upward(s, p, r, h.error, q)), x);
        case _ =>
      }
    }
  }

  // ---------- reports ----------

  /** The move takes a report of `x` from the inbox of its parent. */
  ghost predicate Answers(s: System, m: Move, x: Pid)
    requires Enabled(s, m)
  {
    m.Handle? && s[m.pid].inbox[0].Failure? && s[m.pid].inbox[0].child == x
  }

  /**
   Between an open actor and its open parent: the reports on their way grow by exactly the
   failures the actor incurs, and shrink by the one the parent answers.
   */
  lemma MoveReports(s: System, m: Move, x: Pid)
    requires Tied(s) && Enabled(s, m) && Unforged(s, m) && Open(s, x) && HasOpenParent(s, x)
    requires !EndsAt(s, m, x) && !EndsAt(s, m, s[x].parent.value)
    ensures var t := Moved(s, m);
            && x in t && t[x].parent == s[x].parent
            && Reports(t, x) + (if Answers(s, m, x) then 1 else 0) == Reports(s, x) + (if x == m.pid then |Causes(s, m)| else 0)
  {
    var q := s[x].parent.value;
    MoveAt(s, m, x);
    MoveAt(s, m, q);
    MailCount(s, m, q, x);
    CountBoth(Rest(s, m, q), Mail(s, m, q), x);
    if m.Handle? {
      if m.pid == q {
        CountFailuresTail(s[q].inbox, x);
      } else if Answers(s, m, x) {
        assert CellTied(s, m.pid);
        InboxPop(s, m.pid, s[m.pid].inbox);
      }
    }
  }

  /** The failures that `x` incurred before state `i`. */
  ghost function Incurred(states: seq<System>, moves: seq<Move>, i: nat, x: Pid): nat
    requires IsHistory(states, moves) && i <= |moves|
  {
    if i == 0 then 0
    else
      assert Happens(states, moves, i - 1);
      Incurred(states, moves, i - 1, x) + if moves[i - 1].pid == x then |Causes(states[i - 1], moves[i - 1])| else 0
  }

  /** The reports of `x` that were answered before state `i`. */
  ghost function AnsweredBy(states: seq<System>, moves: seq<Move>, i: nat, x: Pid): nat
    requires IsHistory(states, moves) && i <= |moves|
  {
    if i == 0 then 0
    else
      assert Happens(states, moves, i - 1);
      AnsweredBy(states, moves, i - 1, x) + if Answers(states[i - 1], moves[i - 1], x) then 1 else 0
  }

  lemma Unborn(s: System, m: Move, x: Pid)
    requires Tied(s) && Enabled(s, m) && x !in s
    ensures m.pid != x && !Answers(s, m, x)
    ensures m.SpawnChild? && m.child == x ==> Reports(Moved(s, m), x) == 0
    ensures x in Moved(s, m) ==> m.SpawnChild? && m.child == x
  {
    assert CellTied(s, m.pid);
    MoveKeys(s, m);
    if m.Handle? {
      InboxPop(s, m.pid, s[m.pid].inbox);
    }
    if m.SpawnChild? && m.child == x {
      var q := s[m.pid].inbox;
      forall k | 0 <= k < |q| ensures !(q[k].Failure? && q[k].child == x) {
        assert MessageTied(s, m.pid, q[k], q[k + 1..]);
      }
      NoReports(q, x);
    }
  }

  lemma ReportKeys(s: System, p: Pid, cause: Cause)
    requires p in s
    ensures ReportFailure(s, p, cause).Keys == s.Keys
  {
  }

  lemma FailureKeys(s: System, p: Pid, child: Pid, cause: Cause, h: Hooks)
    requires p in s
    ensures OnFailure(s, p, child, cause, h).Keys == s.Keys
  {
    forall t: System, c: Cause ensures p in t ==> ReportFailure(t, p, c).Keys == t.Keys {
      if p in t {
        ReportKeys(t, p, c);
      }
    }
  }

  lemma FinishKeys(s: System, p: Pid, error: Cause, ok: bool)
    requires p in s
    ensures FinishRecreate(s, p, error, ok).Keys == s.Keys
  {
    var c := s[p].(deferredCause := None, suspends := Less(s[p].suspends), failed := Fatal);
    ReportKeys(s[p := c], p, error);
  }

  lemma RecreateKeys(s: System, p: Pid, cause: Cause, h: Hooks)
    requires p in s
    ensures OnRecreate(s, p, cause, h).Keys == s.Keys
  {
    var t := BeforeReason(s, p, h);
    assert StopAllChildren(s, p).Keys == s.Keys && t.Keys == s.Keys;
    FinishKeys(WithReason(t, p, cause), p, h.error, h.postRestart);
  }

  lemma NotificationKeys(s: System, p: Pid, dead: Pid, h: Hooks)
    requires p in s
    ensures OnNotification(s, p, dead, h).Keys == s.Keys
  {
    var t := PopHead(s[p := s[p].(registry := Notified(s[p].registry, dead).0)], p);
    FinishKeys(t, p, h.error, h.postRestart);
  }

  /** Only a spawn brings a new actor. */
  lemma MoveKeys(s: System, m: Move)
    requires Enabled(s, m)
    ensures Moved(s, m).Keys == if m.SpawnChild? then s.Keys + {m.child} else s.Keys
  {
    if m.Handle? {
      var p, h := m.pid, m.hooks;
      match s[p].inbox[0] {
        case Failure(child, cause) => FailureKeys(s, p, child, cause, h);
        case Recreate(cause) => RecreateKeys(s, p, cause, h);
        case DeathWatchNotification(dead) => NotificationKeys(s, p, dead, h);
        case Kill => ReportKeys(PopHead(s, p), p, KILLED);
        case Create => ReportKeys(PopHead(s, p), p, h.error);
        case _ =>
      }
    }
  }

  lemma {:induction false} UnbornBefore(states: seq<System>, moves: seq<Move>, i: nat, x: Pid)
    requires UnforgedRun(states, moves) && i < |states| && x !in states[i]
    ensures Incurred(states, moves, i, x) == 0 && AnsweredBy(states, moves, i, x) == 0
  {
    if i > 0 {
      assert Happens(states, moves, i - 1);
      RunTied(states, moves, i - 1);
      MoveFinal(states[i - 1], moves[i - 1], x);
      Unborn(states[i - 1], moves[i - 1], x);
      UnbornBefore(states, moves, i - 1, x);
    }
  }

  /** Who is open under an open parent was so before, or has just been spawned. */
  lemma OpenBefore(s: System, m: Move, x: Pid)
    requires Tied(s) && Enabled(s, m) && x in s && Open(Moved(s, m), x) && HasOpenParent(Moved(s, m), x)
    ensures Open(s, x) && HasOpenParent(s, x) && !EndsAt(s, m, x) && !EndsAt(s, m, s[x].parent.value)
  {
    MoveFinal(s, m, x);
    assert CellTied(s, x);
    var q := s[x].parent.value;
    MoveFinal(s, m, q);
    MoveEnds(s, m, x);
    MoveEnds(s, m, q);
  }

  /** One move in the books of an actor that is open under an open parent after it. */
  lemma BooksNext(s: System, m: Move, x: Pid)
    requires Tied(s) && Enabled(s, m) && Unforged(s, m) && Open(Moved(s, m), x) && HasOpenParent(Moved(s, m), x)
    ensures x !in s ==> m.pid != x && !Answers(s, m, x) && Reports(Moved(s, m), x) == 0
    ensures x in s ==>
              && Open(s, x) && HasOpenParent(s, x)
              && Reports(Moved(s, m), x) + (if Answers(s, m, x) then 1 else 0) == Reports(s, x) + (if m.pid == x then |Causes(s, m)| else 0)
  {
    if x !in s {
      Unborn(s, m, x);
    } else {
      OpenBefore(s, m, x);
      MoveReports(s, m, x);
    }
  }

  lemma BooksEntry(states: seq<System>, moves: seq<Move>, i: nat, x: Pid)
    requires IsHistory(states, moves) && i < |moves| && Happens(states, moves, i)
    ensures Incurred(states, moves, i + 1, x)
            == Incurred(states, moves, i, x) + if moves[i].pid == x then |Causes(states[i], moves[i])| else 0
    ensures AnsweredBy(states, moves, i + 1, x)
            == AnsweredBy(states, moves, i, x) + if Answers(states[i], moves[i], x) then 1 else 0
  {
  }

  /**
   Conservation of reports over every run without forged messages: whatever an open actor under
   an open parent incurred so far was answered by the parent or is in its inbox.
   */
  lemma {:induction false} ReportsConserved(states: seq<System>, moves: seq<Move>, i: nat, x: Pid)
    requires UnforgedRun(states, moves) && i < |states| && Open(states[i], x) && HasOpenParent(states[i], x)
    ensures Incurred(states, moves, i, x) == AnsweredBy(states, moves, i, x) + Reports(states[i], x)
  {
    if i > 0 {
      assert Happens(states, moves, i - 1);
      RunTied(states, moves, i - 1);
      BooksEntry(states, moves, i - 1, x);
      BooksNext(states[i - 1], moves[i - 1], x);
      if x !in states[i - 1] {
        UnbornBefore(states, moves, i - 1, x);
      } else {
        ReportsConserved(states, moves, i - 1, x);
      }
    }
  }

  // ---------- answers ----------

  /** The messages other than Suspend. */
  function Plain(q: seq<SysMsg>): seq<SysMsg> {
    if q == [] then []
    else if q[|q| - 1].Suspend? then Plain(q[..|q| - 1])
    else Plain(q[..|q| - 1]) + [q[|q| - 1]]
  }

  lemma {:induction false} PlainBoth(a: seq<SysMsg>, b: seq<SysMsg>)
    ensures Plain(a + b) == Plain(a) + Plain(b)
  {
    if b == [] {
      assert a + b == a;
    } else {
      PlainBoth(a, b[..|b| - 1]);
      assert (a + b)[..|a + b| - 1] == a + b[..|b| - 1];
    }
  }

  lemma PlainOne(m: SysMsg)
    ensures Plain([m]) == if m.Suspend? then [] else [m]
  {
    assert [m][..0] == [];
  }

  lemma PlainFour(a: seq<SysMsg>, b: seq<SysMsg>, c: seq<SysMsg>, d: seq<SysMsg>, a_: seq<SysMsg>, c_: seq<SysMsg>, d_: seq<SysMsg>)
    requires Plain(a) == a_ && Plain(b) == [] && Plain(c) == c_ && Plain(d) == d_
    ensures Plain(a + b + c + d) == a_ + c_ + d_
  {
    PlainBoth(a + b + c, d);
    PlainBoth(a + b, c);
    PlainBoth(a, b);
    assert a_ + [] + c_ + d_ == a_ + c_ + d_;
  }

  function Reported(p: Pid, causes: seq<Cause>): seq<SysMsg> {
    seq(|causes|, i requires 0 <= i < |causes| => Failure(p, causes[i]))
  }

  /** A failure of `p` brings somebody else a report if it is the open parent, and at most a Suspend otherwise. */
  lemma UpwardPlain(s: System, p: Pid, r: Registry, cause: Cause, x: Pid)
    requires p in s && x != p && (s[p].parent == Some(x) ==> !r.children.Registered(x))
    ensures Plain(Upward(s, p, r, cause, x)) == if HasOpenParent(s, p) && s[p].parent == Some(x) then [Failure(p, cause)] else []
  {
    PlainOne(Suspend);
    PlainOne(Failure(p, cause));
  }

  lemma ReportedTwo(p: Pid, first: seq<Cause>, second: seq<Cause>)
    requires |first| <= 1 && |second| <= 1
    ensures Reported(p, first + second)
            == (if first == [] then [] else [Failure(p, first[0])]) + (if second == [] then [] else [Failure(p, second[0])])
  {
  }

  lemma WhenPlain(given: bool, mail: seq<SysMsg>)
    ensures Plain(When(given, mail)) == When(given, Plain(mail))
  {
  }

  lemma UpwardPlainWhen(given: bool, s: System, p: Pid, r: Registry, cause: Cause, x: Pid)
    requires p in s && x != p && (s[p].parent == Some(x) ==> !r.children.Registered(x) && Open(s, x))
    ensures Plain(When(given, Upward(s, p, r, cause, x))) == When(given && s[p].parent == Some(x), [Failure(p, cause)])
  {
    UpwardPlain(s, p, r, cause, x);
    WhenPlain(given, Upward(s, p, r, cause, x));
  }

  lemma AnswerPlainWhen(given: bool, m: SysMsg)
    ensures Plain(When(given, [m])) == When(given && !m.Suspend?, [m])
  {
    PlainOne(m);
    WhenPlain(given, [m]);
  }

  /** The reports of the failures that come with an answered one. */
  lemma FailureReported(s: System, p: Pid, child: Pid, cause: Cause, h: Hooks)
    requires p in s
    ensures Reported(p, FailureCauses(s, p, child, cause, h))
            == When(!h.onChildFailed, [Failure(p, h.error)]) + When(GivesUp(s, p, child, h), [Failure(p, cause)])
  {
    var first, second := if h.onChildFailed then [] else [h.error], if GivesUp(s, p, child, h) then [cause] else [];
    assert FailureCauses(s, p, child, cause, h) == first + second;
    ReportedTwo(p, first, second);
  }

  lemma FailureMailPlain(s: System, p: Pid, child: Pid, cause: Cause, h: Hooks, r: Registry, x: Pid)
    requires p in s && Open(s, x) && x != p && (s[p].parent == Some(x) ==> !r.children.Registered(x))
    ensures var parent := s[p].parent == Some(x);
            Plain(FailureMail(s, p, child, cause, h, r, x))
            == When(!h.onChildFailed && parent, [Failure(p, h.error)])
               + When(x in Affected(s[p].registry.children, child, h), [AnswerOf(InForce(s[p], h), cause)])
               + When(GivesUp(s, p, child, h) && parent, [Failure(p, cause)])
  {
    var affected, directive, parent := Affected(s[p].registry.children, child, h), InForce(s[p], h), s[p].parent == Some(x);
    var under, given := directive.RestartChild? && UnderSibling(s, affected, child, x), GivesUp(s, p, child, h);
    UpwardPlainWhen(!h.onChildFailed, s, p, r, h.error, x);
    AnswerPlainWhen(under, Suspend);
    AnswerPlainWhen(x in affected, AnswerOf(directive, cause));
    UpwardPlainWhen(given, s, p, r, cause, x);
    PlainFour(When(!h.onChildFailed, Upward(s, p, r, h.error, x)), When(under, [Suspend]),
              When(x in affected, [AnswerOf(directive, cause)]), When(given, Upward(s, p, r, cause, x)),
              When(!h.onChildFailed && parent, [Failure(p, h.error)]), When(x in affected, [AnswerOf(directive, cause)]),
              When(given && parent, [Failure(p, cause)]));
  }

  /** What `x` gets of an answered failure, besides Suspends. */
  ghost function Answer(s: System, p: Pid, child: Pid, cause: Cause, h: Hooks, x: Pid): seq<SysMsg>
    requires p in s
  {
    if x in Affected(s[p].registry.children, child, h) then [AnswerOf(InForce(s[p], h), cause)]
    else if s[p].parent == Some(x) then Reported(p, FailureCauses(s, p, child, cause, h))
    else []
  }

  lemma FailureMailAnswers(s: System, p: Pid, child: Pid, cause: Cause, h: Hooks, r: Registry, x: Pid)
    requires p in s && Open(s, x) && x != p && (s[p].parent == Some(x) ==> !r.children.Registered(x))
    requires x in Affected(s[p].registry.children, child, h) ==> s[p].parent != Some(x)
    ensures Plain(FailureMail(s, p, child, cause, h, r, x)) == Answer(s, p, child, cause, h, x)
  {
    FailureMailPlain(s, p, child, cause, h, r, x);
    FailureReported(s, p, child, cause, h);
    var answer := [AnswerOf(InForce(s[p], h), cause)];
    assert [] + answer + [] == answer;
  }

  lemma NotBothWays(s: System, p: Pid, child: Pid, cause: Cause, h: Hooks, x: Pid)
    requires Tied(s) && Enabled(s, Handle(p, h)) && s[p].inbox[0] == Failure(child, cause)
    ensures s[p].parent == Some(x) ==> !RegistryAfter(s, Handle(p, h)).children.Registered(x)
    ensures x in Affected(s[p].registry.children, child, h) ==> s[p].parent != Some(x)
  {
    AffectedChildren(s, p, child, cause, h);
    assert CellTied(s, p);
    if s[p].parent == Some(x) {
      ParentNotBelow(s, Handle(p, h), x);
    }
  }

  /**
   The answer to a failure goes to the affected children, one message each and the one the
   directive in force names; the parent gets a report for each failure that the supervisor
   incurs with it, in order; everybody else gets at most Suspends.
   */
  lemma FailureAnswers(s: System, p: Pid, child: Pid, cause: Cause, h: Hooks, x: Pid)
    requires Tied(s) && Enabled(s, Handle(p, h)) && s[p].inbox[0] == Failure(child, cause) && Open(s, x) && x != p
    ensures var t, mail := Moved(s, Handle(p, h)), Mail(s, Handle(p, h), x);
            x in t && t[x].inbox == s[x].inbox + mail && Plain(mail) == Answer(s, p, child, cause, h, x)
  {
    MoveAt(s, Handle(p, h), x);
    NotBothWays(s, p, child, cause, h, x);
    FailureFields(s, p, child, cause, h, x);
    FailureMailAnswers(s, p, child, cause, h, RegistryAfter(s, Handle(p, h)), x);
  }

  // ---------- over runs ----------

  /** A registry becomes Terminated only with the end of its actor. */
  lemma LiveNext(s: System, m: Move, x: Pid)
    requires Tied(s) && Enabled(s, m) && Open(s, x) && !EndsAt(s, m, x) && !s[x].registry.children.Terminated?
    ensures !After(s[x].registry, EventsAt(s, m, x)).children.Terminated?
  {
    var r, es := s[x].registry, EventsAt(s, m, x);
    AfterNone(r);
    assert CellTied(s, x);
    forall d | r.children.Registered(d) ensures Watch(d, Supervision) in r.watching {
      assert s[x].Supervises(d);
    }
    if m.Handle? && m.pid == x && s[x].inbox[0].Recreate? {
      RestartLive(r, s[x].inbox[0].cause, m.hooks);
    } else if es != [] {
      assert |es| == 1 && es == [es[0]];
      AfterOne(r, es[0]);
      EventLive(r, es[0]);
    }
  }

  lemma EventLive(r: Registry, e: Event)
    requires r.children.Valid() && r.Supervised() && !r.children.Terminated?
    requires e.Notification? ==> Notified(r, e.pid).1 != Some(Termination)
    ensures !Step(r, e).0.children.Terminated?
  {
    match e {
      case Notification(p) => NotifiedKeeps(r, p);
      case ChildLeft(p) => UnregisteredKeeps(r, p);
      case ChildFailed(p, stats, removed) => AfterFailureKeeps(r.children, p, stats, removed);
      case StopAll =>
        AllListed(r.children);
        MarkAllValid(r.children, r.children.Children());
      case StopChildren =>
        AllListed(r.children);
        MarkAllValid(r.children, r.children.Children());
      case _ =>
    }
  }

  lemma RestartLive(r: Registry, cause: Cause, h: Hooks)
    requires r.children.Valid() && r.Supervised() && !r.children.Terminated?
    ensures !After(r, []).children.Terminated?
    ensures var es := (if h.stopsChildren then [StopChildren] else []) + (if h.preRestart then [Restart(cause)] else []);
            !After(r, es).children.Terminated?
  {
    RestartEvents(r, cause, h.stopsChildren, h.preRestart);
    EventLive(r, StopChildren);
  }

  lemma LiveMove(s: System, m: Move, x: Pid)
    requires Tied(s) && Enabled(s, m) && Open(Moved(s, m), x)
    requires Open(s, x) ==> !s[x].registry.children.Terminated?
    ensures x in s ==> Open(s, x)
    ensures !Moved(s, m)[x].registry.children.Terminated?
  {
    if x in s {
      MoveFinal(s, m, x);
      MoveEnds(s, m, x);
      LiveNext(s, m, x);
      MoveAt(s, m, x);
    } else {
      Unborn(s, m, x);
    }
  }

  /** In every run without forged messages an open actor has a registry that has not ended. */
  lemma {:induction false} OpenIsLive(states: seq<System>, moves: seq<Move>, i: nat, x: Pid)
    requires UnforgedRun(states, moves) && i < |states| && Open(states[i], x)
    ensures !states[i][x].registry.children.Terminated?
  {
    if i > 0 {
      assert Happens(states, moves, i - 1);
      RunTied(states, moves, i - 1);
      if Open(states[i - 1], x) {
        OpenIsLive(states, moves, i - 1, x);
      }
      LiveMove(states[i - 1], moves[i - 1], x);
    }
  }

  /** The failure concerns its child alone, or every child under AllForOne. */
  predicate Concerns(s: System, p: Pid, child: Pid, h: Hooks, x: Pid)
    requires p in s
  {
    x == child || (h.kind.AllForOne? && s[p].Supervises(x))
  }

  lemma AffectedConcerned(s: System, p: Pid, child: Pid, h: Hooks, x: Pid)
    requires p in s && !s[p].registry.children.Terminated?
    ensures x in Affected(s[p].registry.children, child, h) <==> Concerns(s, p, child, h, x)
  {
    var a := s[p].registry.children;
    ChildrenListed(TouchStats(a, child, h.stats), x);
    AfterFailureExact(a, child, h.stats, [], x);
    assert RemoveEach(TouchStats(a, child, h.stats), []) == TouchStats(a, child, h.stats);
  }

  /** The supervisor cannot settle the failure: it escalates, or somebody to restart is gone. */
  ghost predicate Escalates(s: System, p: Pid, child: Pid, h: Hooks)
    requires p in s
  {
    h.directive.EscalateUp? || (h.directive.RestartChild? && exists x :: Concerns(s, p, child, h, x) && !Open(s, x))
  }

  lemma GivesUpExactly(s: System, p: Pid, child: Pid, h: Hooks)
    requires p in s && !s[p].registry.children.Terminated?
    ensures GivesUp(s, p, child, h) <==> Escalates(s, p, child, h)
  {
    forall x ensures x in Affected(s[p].registry.children, child, h) <==> Concerns(s, p, child, h, x) {
      AffectedConcerned(s, p, child, h, x);
    }
  }

  /** At move `i`, `p` handles a failure of `child`. */
  ghost predicate HandlesFailure(states: seq<System>, moves: seq<Move>, i: nat, p: Pid, h: Hooks, child: Pid, cause: Cause) {
    && Happens(states, moves, i) && moves[i] == Handle(p, h)
    && states[i][p].inbox != [] && states[i][p].inbox[0] == Failure(child, cause)
  }

  /**
   The account of every failure handled in a run without forged messages: the supervisor is
   suspended once more, and its open parent has one more report of it, for each of these:
   `on_child_failed` failed, it escalates, a child to restart is gone.
   */
  lemma EveryFailureAccounted(states: seq<System>, moves: seq<Move>, i: nat, p: Pid, h: Hooks, child: Pid, cause: Cause)
    requires UnforgedRun(states, moves) && i < |moves| && HandlesFailure(states, moves, i, p, h, child, cause)
    ensures var s, t := states[i], states[i + 1];
            var n := (if h.onChildFailed then 0 else 1) + (if Escalates(s, p, child, h) then 1 else 0);
            && Open(t, p) && t[p].suspends == s[p].suspends + n
            && (HasOpenParent(s, p) ==> Reports(t, p) == Reports(s, p) + n)
  {
    var s, m := states[i], moves[i];
    RunTied(states, moves, i);
    OpenIsLive(states, moves, i, p);
    GivesUpExactly(s, p, child, h);
    CausesCount(s, p, child, cause, h);
    FailureFields(s, p, child, cause, h, p);
    MoveAt(s, m, p);
    if HasOpenParent(s, p) {
      assert CellTied(s, p);
      InboxPop(s, p, s[p].inbox);
      MoveReports(s, m, p);
    }
  }

  /**
   And its answer: everybody it concerns who is open gets exactly one of Recreate, Stop and
   Resume, the one the directive names, and nobody else gets any; the open parent gets the
   reports, in order.
   */
  lemma EveryFailureAnswered(states: seq<System>, moves: seq<Move>, i: nat, p: Pid, h: Hooks, child: Pid, cause: Cause, x: Pid)
    requires UnforgedRun(states, moves) && i < |moves| && HandlesFailure(states, moves, i, p, h, child, cause)
    requires Open(states[i], x) && x != p
    ensures var s, t := states[i], states[i + 1];
            && x in t && s[x].inbox <= t[x].inbox
            && Plain(t[x].inbox[|s[x].inbox|..])
               == if Concerns(s, p, child, h, x) then [AnswerOf(h.directive, cause)]
                  else if s[p].parent == Some(x)
                  then When(!h.onChildFailed, [Failure(p, h.error)]) + When(Escalates(s, p, child, h), [Failure(p, cause)])
                  else []
  {
    var s := states[i];
    RunTied(states, moves, i);
    OpenIsLive(states, moves, i, p);
    AffectedConcerned(s, p, child, h, x);
    GivesUpExactly(s, p, child, h);
    FailureReported(s, p, child, cause, h);
    FailureAnswers(s, p, child, cause, h, x);
    var mail := Mail(s, Handle(p, h), x);
    assert (s[x].inbox + mail)[|s[x].inbox|..] == mail;
  }
}
