/**
 Runs of three actors that show the conditions of the theorems about the tree are needed: a
 child added to a suspended parent by a spawn or by a late report, a child kept through
 a restart, a restart that overrides a stop, and a child spawned by a stopping parent.
 */
module ChainRuns {
  import opened Options
  import opened ChildRegistry
  import opened DeathWatch
  import opened Supervision
  import opened SuspendCoverage
  import opened TreeWatch
  import opened Orphans
  import opened Histories

  function Top(inbox: seq<SysMsg>): Cell { Actor(None, Watching(1), 0, NotFailed, inbox) }

  function Middle(registry: Registry, suspends: nat, failed: FailedInfo, inbox: seq<SysMsg>): Cell {
    Actor(Some(0), registry, suspends, failed, inbox)
  }

  function Leaf(suspends: nat, failed: FailedInfo, inbox: seq<SysMsg>): Cell {
    Actor(Some(1), CHILDLESS, suspends, failed, inbox)
  }

  function Pair(t: Cell, m: Cell): System { map[0 := t, 1 := m] }

  function Chain(t: Cell, m: Cell, l: Cell): System { map[0 := t, 1 := m, 2 := l] }

  const RESTART: Hooks := Answer(RestartChild, OneForOne, true)

  const KEEP_CHILDREN: Hooks := Answer(RestartChild, OneForOne, false)

  const RESUME: Hooks := Answer(ResumeChild, OneForOne, true)

  /** A move in scope and where it leads. */
  ghost predicate Leads(s: System, m: Move, t: System) {
    Enabled(s, m) && InScope(s, m) && Moved(s, m) == t
  }

  // ---------- steps the runs share ----------

  lemma SpawnMiddle()
    ensures Leads(ROOT, SpawnChild(0, 1), Pair(Top([]), Middle(CHILDLESS, 0, NotFailed, [Create])))
  {
    var none: seq<Watch> := [];
    assert none + [Watch(1, Supervision)] == [Watch(1, Supervision)];
    assert Spawn(ROOT, 0, 1) == Pair(Top([]), Middle(CHILDLESS, 0, NotFailed, [Create]));
  }

  /** Spawning actor 2, whatever actor 1 is doing. */
  lemma SpawnLeaf(suspends: nat, failed: FailedInfo, inbox: seq<SysMsg>)
    ensures var s := Pair(Top([]), Middle(CHILDLESS, suspends, failed, inbox));
            && Enabled(s, SpawnChild(1, 2)) && (InScope(s, SpawnChild(1, 2)) <==> suspends == 0)
            && Moved(s, SpawnChild(1, 2)) == Chain(Top([]), Middle(Watching(2), suspends, failed, inbox), Leaf(0, NotFailed, [Create]))
  {
    var s := Pair(Top([]), Middle(CHILDLESS, suspends, failed, inbox));
    var none: seq<Watch> := [];
    assert none + [Watch(2, Supervision)] == [Watch(2, Supervision)];
    assert Spawn(s, 1, 2) == Chain(Top([]), Middle(Watching(2), suspends, failed, inbox), Leaf(0, NotFailed, [Create]));
  }

  lemma CreateLeaf(m: Cell)
    requires m.parent == Some(0) && !m.stopped
    ensures Leads(Chain(Top([]), m, Leaf(0, NotFailed, [Create])), Handle(2, RESTART), Chain(Top([]), m, Leaf(0, NotFailed, [])))
  {
    var s := Chain(Top([]), m, Leaf(0, NotFailed, [Create]));
    assert [Create][1..] == [];
    assert PopHead(s, 2) == Chain(Top([]), m, Leaf(0, NotFailed, []));
  }

  lemma CreateMiddleAlone()
    ensures Leads(Pair(Top([]), Middle(CHILDLESS, 0, NotFailed, [Create])), Handle(1, RESTART),
                  Pair(Top([]), Middle(CHILDLESS, 0, NotFailed, [])))
  {
    var s := Pair(Top([]), Middle(CHILDLESS, 0, NotFailed, [Create]));
    assert [Create][1..] == [];
    assert PopHead(s, 1) == Pair(Top([]), Middle(CHILDLESS, 0, NotFailed, []));
  }

  // ---------- a child added to a suspended parent ----------

  const MIDDLE_FAILED: System := Pair(Top([Failure(1, 7)]), Middle(CHILDLESS, 1, FailedBy(1), []))

  /** Actor 1 failed, and its parent has answered with Resume. */
  const ANSWERED: System := Pair(Top([]), Middle(CHILDLESS, 1, FailedBy(1), [Resume]))

  const REPORTED: System := Chain(Top([]), Middle(Watching(2), 1, FailedBy(1), [Resume, Failure(2, 7)]), Leaf(1, FailedBy(2), []))

  const PASSED_ON: System := Chain(Top([]), Middle(Watching(2), 0, NotFailed, [Failure(2, 7)]), Leaf(1, FailedBy(2), [Resume]))

  const RESUMED: System := Chain(Top([]), Middle(Watching(2), 0, NotFailed, [Failure(2, 7)]), Leaf(0, NotFailed, []))

  const RESTARTING: System := Chain(Top([]), Middle(Watching(2), 0, NotFailed, []), Leaf(0, NotFailed, [Recreate(7)]))

  lemma FailMiddleAlone()
    ensures Leads(Pair(Top([]), Middle(CHILDLESS, 0, NotFailed, [])), Report(1, 7), MIDDLE_FAILED)
  {
    var r := Pair(Top([]), Middle(CHILDLESS, 0, NotFailed, []));
    var s := Pair(Top([]), Middle(CHILDLESS, 1, FailedBy(1), []));
    assert r[1].Children() == [];
    assert r[1 := s[1]] == s;
    AppendToEmpty(Failure(1, 7));
    assert Send(s, 0, Failure(1, 7)) == MIDDLE_FAILED;
  }

  lemma AnswerResume()
    ensures Leads(MIDDLE_FAILED, Handle(0, RESUME), ANSWERED)
  {
    OnlyChild(1);
    var s := Pair(Top([]), Middle(CHILDLESS, 1, FailedBy(1), []));
    assert [Failure(1, 7)][1..] == [];
    assert MIDDLE_FAILED[0 := MIDDLE_FAILED[0]] == MIDDLE_FAILED && PopHead(MIDDLE_FAILED, 0) == s;
    SendOne(s, 1, Resume);
    AppendToEmpty(Resume);
    assert Send(s, 1, Resume) == ANSWERED;
  }

  lemma FailLeaf()
    ensures Leads(Chain(Top([]), Middle(Watching(2), 1, FailedBy(1), [Resume]), Leaf(0, NotFailed, [])), Report(2, 7), REPORTED)
  {
    var r := Chain(Top([]), Middle(Watching(2), 1, FailedBy(1), [Resume]), Leaf(0, NotFailed, []));
    var s := Chain(Top([]), Middle(Watching(2), 1, FailedBy(1), [Resume]), Leaf(1, FailedBy(2), []));
    assert r[2].Children() == [];
    assert r[2 := s[2]] == s;
    assert [Resume] + [Failure(2, 7)] == [Resume, Failure(2, 7)];
    assert Send(s, 1, Failure(2, 7)) == REPORTED;
  }

  lemma PassOn()
    ensures Leads(REPORTED, Handle(1, RESTART), PASSED_ON)
  {
    OnlyChild(2);
    var s := Chain(Top([]), Middle(Watching(2), 0, NotFailed, [Failure(2, 7)]), Leaf(1, FailedBy(2), []));
    assert [Resume, Failure(2, 7)][1..] == [Failure(2, 7)];
    assert REPORTED[1 := s[1]] == s;
    SendOne(s, 2, Resume);
    AppendToEmpty(Resume);
    assert Send(s, 2, Resume) == PASSED_ON;
  }

  lemma LeafResumes()
    ensures Leads(PASSED_ON, Handle(2, RESTART), RESUMED)
  {
    assert PASSED_ON[2].Children() == [] && [Resume][1..] == [];
    assert PASSED_ON[2 := Leaf(0, NotFailed, [])] == RESUMED;
  }

  lemma LeafRestarts()
    ensures Leads(RESUMED, Handle(1, RESTART), RESTARTING)
  {
    OnlyChild(2);
    var s := Chain(Top([]), Middle(Watching(2), 0, NotFailed, []), Leaf(0, NotFailed, []));
    assert [Failure(2, 7)][1..] == [];
    assert RESUMED[1 := RESUMED[1]] == RESUMED && PopHead(RESUMED, 1) == s;
    NoSiblings(s, 2);
    SendOne(s, 2, Recreate(7));
    AppendToEmpty(Recreate(7));
    assert Send(s, 2, Recreate(7)) == RESTARTING;
  }

  lemma Answered() returns (states: seq<System>, moves: seq<Move>)
    ensures Reaches(states, moves, ANSWERED) && OnlyOut(states, moves, 4) && |moves| == 4
  {
    var one, two := Pair(Top([]), Middle(CHILDLESS, 0, NotFailed, [Create])), Pair(Top([]), Middle(CHILDLESS, 0, NotFailed, []));
    AtRoot(4);
    states, moves := [ROOT], [];
    SpawnMiddle();
    Extend(states, moves, ROOT, SpawnChild(0, 1), one, 4);
    states, moves := states + [one], moves + [SpawnChild(0, 1)];
    CreateMiddleAlone();
    Extend(states, moves, one, Handle(1, RESTART), two, 4);
    states, moves := states + [two], moves + [Handle(1, RESTART)];
    FailMiddleAlone();
    Extend(states, moves, two, Report(1, 7), MIDDLE_FAILED, 4);
    states, moves := states + [MIDDLE_FAILED], moves + [Report(1, 7)];
    AnswerResume();
    Extend(states, moves, MIDDLE_FAILED, Handle(0, RESUME), ANSWERED, 4);
    states, moves := states + [ANSWERED], moves + [Handle(0, RESUME)];
  }

  /**
   A whole run, out of scope where actor 1 spawns while it is suspended and nowhere else:
   the new child missed the Suspend but gets the Resume, before its own report is
   answered, and is then told to restart although it is not suspended.
   */
  lemma SpawnWhileSuspendedUncovers() returns (states: seq<System>, moves: seq<Move>)
    ensures IsHistory(states, moves) && |moves| == 10 && OnlyOut(states, moves, 4)
    ensures Open(states[10], 2) && states[10][2].inbox == [Recreate(7)] && !states[10][2].IsSuspended()
  {
    states, moves := Answered();
    var m := Middle(Watching(2), 1, FailedBy(1), [Resume]);
    var five, six := Chain(Top([]), m, Leaf(0, NotFailed, [Create])), Chain(Top([]), m, Leaf(0, NotFailed, []));
    SpawnLeaf(1, FailedBy(1), [Resume]);
    Extend(states, moves, ANSWERED, SpawnChild(1, 2), five, 4);
    states, moves := states + [five], moves + [SpawnChild(1, 2)];
    CreateLeaf(m);
    Extend(states, moves, five, Handle(2, RESTART), six, 4);
    states, moves := states + [six], moves + [Handle(2, RESTART)];
    FailLeaf();
    Extend(states, moves, six, Report(2, 7), REPORTED, 4);
    states, moves := states + [REPORTED], moves + [Report(2, 7)];
    PassOn();
    Extend(states, moves, REPORTED, Handle(1, RESTART), PASSED_ON, 4);
    states, moves := states + [PASSED_ON], moves + [Handle(1, RESTART)];
    LeafResumes();
    Extend(states, moves, PASSED_ON, Handle(2, RESTART), RESUMED, 4);
    states, moves := states + [RESUMED], moves + [Handle(2, RESTART)];
    LeafRestarts();
    Extend(states, moves, RESUMED, Handle(1, RESTART), RESTARTING, 4);
    states, moves := states + [RESTARTING], moves + [Handle(1, RESTART)];
  }

  // ---------- a child kept through a restart ----------

  const GROWN: System := Chain(Top([]), Middle(Watching(2), 0, NotFailed, []), Leaf(0, NotFailed, []))

  const WAVE: System := Chain(Top([Failure(1, 7)]), Middle(Watching(2), 1, FailedBy(1), []), Leaf(0, NotFailed, [Suspend]))

  const QUIET: System := Chain(Top([Failure(1, 7)]), Middle(Watching(2), 1, FailedBy(1), []), Leaf(1, NotFailed, []))

  const ORDERED: System := Chain(Top([]), Middle(Watching(2), 1, FailedBy(1), [Recreate(7)]), Leaf(1, NotFailed, []))

  /** Actor 1 runs again, nothing is in flight, and actor 2 is still suspended. */
  const LEFT_BEHIND: System := Chain(Top([]), Middle(Watching(2), 0, NotFailed, []), Leaf(1, NotFailed, []))

  lemma Grown() returns (states: seq<System>, moves: seq<Move>)
    ensures Reaches(states, moves, GROWN) && |moves| == 4 && forall k :: k >= 4 ==> OnlyOut(states, moves, k)
  {
    var one, two := Pair(Top([]), Middle(CHILDLESS, 0, NotFailed, [Create])), Pair(Top([]), Middle(CHILDLESS, 0, NotFailed, []));
    var m := Middle(Watching(2), 0, NotFailed, []);
    var three := Chain(Top([]), m, Leaf(0, NotFailed, [Create]));
    AtRoot(4);
    states, moves := [ROOT], [];
    SpawnMiddle();
    Extend(states, moves, ROOT, SpawnChild(0, 1), one, 4);
    states, moves := states + [one], moves + [SpawnChild(0, 1)];
    CreateMiddleAlone();
    Extend(states, moves, one, Handle(1, RESTART), two, 4);
    states, moves := states + [two], moves + [Handle(1, RESTART)];
    SpawnLeaf(0, NotFailed, []);
    Extend(states, moves, two, SpawnChild(1, 2), three, 4);
    states, moves := states + [three], moves + [SpawnChild(1, 2)];
    CreateLeaf(m);
    Extend(states, moves, three, Handle(2, RESTART), GROWN, 4);
    states, moves := states + [GROWN], moves + [Handle(2, RESTART)];
    forall k | k >= 4 ensures OnlyOut(states, moves, k) {
      forall i | 0 <= i < |moves| ensures InScopeAt(states, moves, i) <==> i != k {
        assert InScopeAt(states, moves, i) <==> i != 4;
      }
    }
  }

  lemma FailMiddle()
    ensures Leads(GROWN, Report(1, 7), WAVE)
  {
    OnlyChild(2);
    var s := Chain(Top([]), Middle(Watching(2), 1, FailedBy(1), []), Leaf(0, NotFailed, []));
    var t := Chain(Top([]), Middle(Watching(2), 1, FailedBy(1), []), Leaf(0, NotFailed, [Suspend]));
    assert GROWN[1 := s[1]] == s;
    SendOne(s, 2, Suspend);
    AppendToEmpty(Suspend);
    assert Send(s, 2, Suspend) == t;
    AppendToEmpty(Failure(1, 7));
    assert Send(t, 0, Failure(1, 7)) == WAVE;
  }

  lemma LeafSuspends()
    ensures Leads(WAVE, Handle(2, RESTART), QUIET)
  {
    assert WAVE[2].Children() == [] && [Suspend][1..] == [];
    assert WAVE[2 := Leaf(1, NotFailed, [])] == QUIET;
  }

  lemma OrderRestart()
    ensures Leads(QUIET, Handle(0, RESTART), ORDERED)
  {
    OnlyChild(1);
    var s := Chain(Top([]), Middle(Watching(2), 1, FailedBy(1), []), Leaf(1, NotFailed, []));
    assert [Failure(1, 7)][1..] == [];
    assert QUIET[0 := QUIET[0]] == QUIET && PopHead(QUIET, 0) == s;
    NoSiblings(s, 1);
    SendOne(s, 1, Recreate(7));
    AppendToEmpty(Recreate(7));
    assert Send(s, 1, Recreate(7)) == ORDERED;
  }

  lemma KeepChildren()
    ensures Leads(ORDERED, Handle(1, KEEP_CHILDREN), LEFT_BEHIND)
  {
    assert [Recreate(7)][1..] == [];
    var t := PopHead(ORDERED, 1);
    assert t == Chain(Top([]), Middle(Watching(2), 1, FailedBy(1), []), Leaf(1, NotFailed, []));
    assert t[1 := LEFT_BEHIND[1]] == LEFT_BEHIND;
  }

  lemma KeptRun() returns (states: seq<System>, moves: seq<Move>)
    ensures Reaches(states, moves, LEFT_BEHIND) && OnlyOut(states, moves, 8) && |moves| == 8
  {
    states, moves := Grown();
    FailMiddle();
    Extend(states, moves, GROWN, Report(1, 7), WAVE, 8);
    states, moves := states + [WAVE], moves + [Report(1, 7)];
    LeafSuspends();
    Extend(states, moves, WAVE, Handle(2, RESTART), QUIET, 8);
    states, moves := states + [QUIET], moves + [Handle(2, RESTART)];
    OrderRestart();
    Extend(states, moves, QUIET, Handle(0, RESTART), ORDERED, 8);
    states, moves := states + [ORDERED], moves + [Handle(0, RESTART)];
    KeepChildren();
    Extend(states, moves, ORDERED, Handle(1, KEEP_CHILDREN), LEFT_BEHIND, 8);
    states, moves := states + [LEFT_BEHIND], moves + [Handle(1, KEEP_CHILDREN)];
  }

  /** Nobody has a message to handle. */
  ghost predicate AllIdle(s: System) {
    forall x :: Open(s, x) ==> s[x].inbox == []
  }

  /**
   `finish_recreate` resumes the cell and not its children: in this run, all of it in scope,
   a child that `pre_restart` kept stays suspended with nothing in flight.
   */
  lemma KeptChildStaysSuspended() returns (states: seq<System>, moves: seq<Move>)
    ensures IsHistory(states, moves) && RunInScope(states, moves) && |moves| == 8
    ensures AllIdle(states[8]) && Open(states[8], 1) && Open(states[8], 2)
    ensures states[8][1].Supervises(2) && !states[8][1].IsSuspended() && states[8][2].IsSuspended()
  {
    states, moves := KeptRun();
    OnlyChild(2);
    assert AllIdle(LEFT_BEHIND);
    forall i | 0 <= i < |moves| ensures InScopeAt(states, moves, i) {
      assert InScopeAt(states, moves, i) <==> i != 8;
    }
  }

  // ---------- a child registered again by a late report ----------

  /** Actor 1 with the watch of a child that is no longer in its registry. */
  const LET_GO: Registry := Registry(Empty, [Watch(2, Supervision)])

  const ONE_REPORT: System := Chain(Top([]), Middle(Watching(2), 0, NotFailed, [Failure(2, 7)]), Leaf(1, FailedBy(2), []))

  const TWO_REPORTS: System :=
    Chain(Top([]), Middle(Watching(2), 0, NotFailed, [Failure(2, 7), Failure(2, 7)]), Leaf(2, FailedBy(2), []))

  /** The first report was answered with a stop, which takes the child from the registry. */
  const DISMISSED: System := Chain(Top([]), Middle(LET_GO, 0, NotFailed, [Failure(2, 7)]), Leaf(2, FailedBy(2), [Stop]))

  const FAILED_ONCE: System :=
    Chain(Top([Failure(1, 7)]), Middle(LET_GO, 1, FailedBy(1), [Failure(2, 7)]), Leaf(2, FailedBy(2), [Stop]))

  const FAILED_TWICE: System :=
    Chain(Top([Failure(1, 7), Failure(1, 7)]), Middle(LET_GO, 2, FailedBy(1), [Failure(2, 7)]), Leaf(2, FailedBy(2), [Stop]))

  /** The late report has brought the child back, while two resumes can still come down to it. */
  const READMITTED: System :=
    Chain(Top([Failure(1, 7), Failure(1, 7)]), Middle(Watching(2), 2, FailedBy(1), []), Leaf(2, FailedBy(2), [Stop, Resume]))

  const DISMISS: Hooks := Answer(StopThem, OneForOne, true)

  lemma ReportOnce()
    ensures Leads(GROWN, Report(2, 7), ONE_REPORT)
  {
    var s := Chain(Top([]), Middle(Watching(2), 0, NotFailed, []), Leaf(1, FailedBy(2), []));
    assert GROWN[2].Children() == [];
    assert GROWN[2 := s[2]] == s;
    AppendToEmpty(Failure(2, 7));
    assert Send(s, 1, Failure(2, 7)) == ONE_REPORT;
  }

  lemma ReportTwice()
    ensures Leads(ONE_REPORT, Report(2, 7), TWO_REPORTS)
  {
    var s := Chain(Top([]), Middle(Watching(2), 0, NotFailed, [Failure(2, 7)]), Leaf(2, FailedBy(2), []));
    assert ONE_REPORT[2].Children() == [];
    assert ONE_REPORT[2 := s[2]] == s;
    assert [Failure(2, 7)] + [Failure(2, 7)] == [Failure(2, 7), Failure(2, 7)];
    assert Send(s, 1, Failure(2, 7)) == TWO_REPORTS;
  }

  lemma RemoveLone()
    ensures RemoveEach(Watching(2).children, [2]) == Empty
  {
    var c := [Child(2, 0)];
    assert [2][..0] == [] && c[..0] == [];
    assert RemoveEach(Watching(2).children, [2][..0]) == Watching(2).children;
    assert Without(c, {2}) == Without(c[..0], {2});
  }

  lemma Dismiss()
    ensures Leads(TWO_REPORTS, Handle(1, DISMISS), DISMISSED)
  {
    OnlyChild(2);
    RemoveLone();
    var s := Chain(Top([]), Middle(LET_GO, 0, NotFailed, [Failure(2, 7)]), Leaf(2, FailedBy(2), []));
    assert ChildrenAfterFailure(Watching(2).children, 2, [2], StopThem, 0) == Empty;
    assert [Failure(2, 7), Failure(2, 7)][1..] == [Failure(2, 7)];
    var t := TWO_REPORTS[1 := TWO_REPORTS[1].(registry := LET_GO)];
    assert PopHead(t, 1) == s;
    SendOne(s, 2, Stop);
    AppendToEmpty(Stop);
    assert Send(s, 2, Stop) == DISMISSED;
  }

  lemma FailOnce()
    ensures Leads(DISMISSED, Report(1, 7), FAILED_ONCE)
  {
    var s := Chain(Top([]), Middle(LET_GO, 1, FailedBy(1), [Failure(2, 7)]), Leaf(2, FailedBy(2), [Stop]));
    assert DISMISSED[1].Children() == [];
    assert DISMISSED[1 := s[1]] == s;
    AppendToEmpty(Failure(1, 7));
    assert Send(s, 0, Failure(1, 7)) == FAILED_ONCE;
  }

  lemma FailTwice()
    ensures Leads(FAILED_ONCE, Report(1, 7), FAILED_TWICE)
  {
    var s := Chain(Top([Failure(1, 7)]), Middle(LET_GO, 2, FailedBy(1), [Failure(2, 7)]), Leaf(2, FailedBy(2), [Stop]));
    assert FAILED_ONCE[1].Children() == [];
    assert FAILED_ONCE[1 := s[1]] == s;
    assert [Failure(1, 7)] + [Failure(1, 7)] == [Failure(1, 7), Failure(1, 7)];
    assert Send(s, 0, Failure(1, 7)) == FAILED_TWICE;
  }

  lemma Readmit()
    ensures Enabled(FAILED_TWICE, Handle(1, RESUME)) && !InScope(FAILED_TWICE, Handle(1, RESUME))
    ensures Moved(FAILED_TWICE, Handle(1, RESUME)) == READMITTED
  {
    var c := [Child(2, 0)];
    assert c[0].pid == 2 && WithStats(c, 2, 0) == c;
    assert TouchStats(Empty, 2, 0) == Watching(2).children;
    assert !LET_GO.children.Registered(2);
    var s := Chain(Top([Failure(1, 7), Failure(1, 7)]), Middle(Watching(2), 2, FailedBy(1), []), Leaf(2, FailedBy(2), [Stop]));
    assert [Failure(2, 7)][1..] == [];
    var t := FAILED_TWICE[1 := FAILED_TWICE[1].(registry := Watching(2))];
    assert PopHead(t, 1) == s;
    SendOne(s, 2, Resume);
    assert [Stop] + [Resume] == [Stop, Resume];
    assert Send(s, 2, Resume) == READMITTED;
  }

  lemma ReadmittedWired()
    ensures Wired(READMITTED)
  {
    var s := READMITTED;
    OnlyChild(1);
    OnlyChild(2);
    assert CellWired(s, 0);
    assert CellWired(s, 1);
    assert CellWired(s, 2);
  }

  lemma TwoAlike(q: seq<SysMsg>)
    requires q == [Failure(1, 7), Failure(1, 7)]
    ensures CountFailures(q, 1) == 2
  {
    var none: seq<SysMsg> := [];
    CountFailuresAppend(none, Failure(1, 7), 1);
    CountFailuresAppend(none + [Failure(1, 7)], Failure(1, 7), 1);
    assert q == none + [Failure(1, 7)] + [Failure(1, 7)];
  }

  lemma NeedOne(r: seq<SysMsg>, n: nat)
    requires r == [Stop, Resume]
    ensures Need(r, n) == n + 1
  {
    assert r[1..] == [Resume] && r[1..][1..] == [];
    assert Need(r[1..], n) == n + 1;
  }

  lemma ReadmittedUncovered()
    ensures Wired(READMITTED) && Open(READMITTED, 2) && !Covered(READMITTED, 2)
  {
    var s := READMITTED;
    ReadmittedWired();
    OnlyChild(2);
    TwoAlike(s[0].inbox);
    assert Wave(s, 1) >= Reports(s, 1) == 2;
    assert Upstream(s, 2) == Wave(s, 1);
    NeedOne(s[2].inbox, Upstream(s, 2));
  }

  lemma FailedTwice() returns (states: seq<System>, moves: seq<Move>)
    ensures Reaches(states, moves, FAILED_TWICE) && OnlyOut(states, moves, 9) && |moves| == 9
  {
    states, moves := Grown();
    ReportOnce();
    Extend(states, moves, GROWN, Report(2, 7), ONE_REPORT, 9);
    states, moves := states + [ONE_REPORT], moves + [Report(2, 7)];
    ReportTwice();
    Extend(states, moves, ONE_REPORT, Report(2, 7), TWO_REPORTS, 9);
    states, moves := states + [TWO_REPORTS], moves + [Report(2, 7)];
    Dismiss();
    Extend(states, moves, TWO_REPORTS, Handle(1, DISMISS), DISMISSED, 9);
    states, moves := states + [DISMISSED], moves + [Handle(1, DISMISS)];
    FailOnce();
    Extend(states, moves, DISMISSED, Report(1, 7), FAILED_ONCE, 9);
    states, moves := states + [FAILED_ONCE], moves + [Report(1, 7)];
    FailTwice();
    Extend(states, moves, FAILED_ONCE, Report(1, 7), FAILED_TWICE, 9);
    states, moves := states + [FAILED_TWICE], moves + [Report(1, 7)];
  }

  /**
   A whole run, out of scope where a suspended actor handles the report of a child it had let
   go and nowhere else: the child is back in the registry, and more resumes can come down
   to it than its counter covers.
   */
  lemma LateReportUncovers() returns (states: seq<System>, moves: seq<Move>)
    ensures IsHistory(states, moves) && |moves| == 10 && OnlyOut(states, moves, 9)
    ensures Wired(states[10]) && Open(states[10], 2) && !Covered(states[10], 2)
  {
    states, moves := FailedTwice();
    Readmit();
    Extend(states, moves, FAILED_TWICE, Handle(1, RESUME), READMITTED, 9);
    states, moves := states + [READMITTED], moves + [Handle(1, RESUME)];
    ReadmittedUncovered();
  }

  // ---------- a restart that overrides a stop ----------

  function Dies(child: Pid, reason: SuspendReason): Registry {
    Registry(Terminating([Child(child, 0)], [child], reason), [Watch(child, Supervision)])
  }

  /** Actor 0 was told to stop before it learns that actor 1 failed. */
  const ASKED: System := Chain(Top([Stop]), Middle(Watching(2), 0, NotFailed, []), Leaf(0, NotFailed, []))

  const BEHIND: System := Chain(Top([Stop, Failure(1, 7)]), Middle(Watching(2), 1, FailedBy(1), []), Leaf(0, NotFailed, [Suspend]))

  function Ending(inbox: seq<SysMsg>): Cell { Actor(None, Dies(1, Termination), 1, NotFailed, inbox) }

  const ENDING: System := Chain(Ending([Failure(1, 7)]), Middle(Watching(2), 1, FailedBy(1), [Stop]), Leaf(0, NotFailed, [Suspend]))

  /** It answers the failure with a restart all the same. */
  const TOO_LATE: System := Chain(Ending([]), Middle(Watching(2), 1, FailedBy(1), [Stop, Recreate(7)]), Leaf(0, NotFailed, [Suspend]))

  const BOTH_ENDING: System := Chain(Ending([]), Middle(Dies(2, Termination), 2, FailedBy(1), [Recreate(7)]), Leaf(0, NotFailed, [Suspend, Stop]))

  function Overridden(inbox: seq<SysMsg>): Cell {
    Middle(Dies(2, Recreation(7)), 2, FailedBy(1), inbox).(deferredCause := Some(7))
  }

  /** The Recreate has replaced the reason of the stop of actor 1. */
  const OVERRIDDEN: System := Chain(Ending([]), Overridden([]), Leaf(0, NotFailed, [Suspend, Stop]))

  const LEAF_SUSPENDED: System := Chain(Ending([]), Overridden([]), Leaf(1, NotFailed, [Stop]))

  const GONE: Cell := Cell(Some(1), CHILDLESS, [], NotFailed, None, 1, true, [])

  const LEAF_GONE: System := Chain(Ending([]), Overridden([DeathWatchNotification(2)]), GONE)

  /** Actor 1 has restarted instead of stopping; actor 0 waits for it, and nothing is in flight. */
  const STRANDED: System := Chain(Ending([]), Middle(CHILDLESS, 1, NotFailed, []), GONE)

  /** A move of an unforged run that overrides no stop, and where it leads. */
  ghost predicate Respects(s: System, m: Move, t: System) {
    Enabled(s, m) && Unforged(s, m) && RespectsStops(s, m) && Moved(s, m) == t
  }

  lemma MarkOne(child: Pid, reason: SuspendReason)
    ensures SetReason(MarkAll(Watching(child).children, [child]), reason).0 == Dies(child, reason).children
    ensures Dies(child, reason).children.Children() == [child] && Dies(child, reason).children.Registered(child)
    ensures TouchStats(Dies(child, reason).children, child, 0) == Dies(child, reason).children
  {
    assert [child][..0] == [];
    assert MarkAll(Watching(child).children, [child][..0]) == Watching(child).children;
    var c := [Child(child, 0)];
    assert c[0].pid == child && WithStats(c, child, 0) == c;
    assert Watching(child).children.Children() == [child];
  }

  lemma AskStop()
    ensures Respects(GROWN, External(0, Stop), ASKED)
  {
    AppendToEmpty(Stop);
    assert Send(GROWN, 0, Stop) == ASKED;
  }

  lemma FailBehind()
    ensures Respects(ASKED, Report(1, 7), BEHIND)
  {
    OnlyChild(2);
    var s := Chain(Top([Stop]), Middle(Watching(2), 1, FailedBy(1), []), Leaf(0, NotFailed, []));
    var t := Chain(Top([Stop]), Middle(Watching(2), 1, FailedBy(1), []), Leaf(0, NotFailed, [Suspend]));
    assert ASKED[1 := s[1]] == s;
    SendOne(s, 2, Suspend);
    AppendToEmpty(Suspend);
    assert Send(s, 2, Suspend) == t;
    assert [Stop] + [Failure(1, 7)] == [Stop, Failure(1, 7)];
    assert Send(t, 0, Failure(1, 7)) == BEHIND;
  }

  lemma BeginEnd()
    ensures Respects(BEHIND, Handle(0, RESTART), ENDING)
  {
    OnlyChild(1);
    MarkOne(1, Termination);
    var s := Chain(Ending([Failure(1, 7)]), Middle(Watching(2), 1, FailedBy(1), []), Leaf(0, NotFailed, [Suspend]));
    assert [Stop, Failure(1, 7)][1..] == [Failure(1, 7)];
    assert PopHead(BEHIND, 0)[0 := s[0]] == s;
    SendOne(s, 1, Stop);
    AppendToEmpty(Stop);
    assert Send(s, 1, Stop) == ENDING;
  }

  lemma AnswerTooLate()
    ensures Respects(ENDING, Handle(0, RESTART), TOO_LATE)
  {
    MarkOne(1, Termination);
    var s := Chain(Ending([]), Middle(Watching(2), 1, FailedBy(1), [Stop]), Leaf(0, NotFailed, [Suspend]));
    assert [Failure(1, 7)][1..] == [];
    assert ENDING[0 := ENDING[0]] == ENDING && PopHead(ENDING, 0) == s;
    NoSiblings(s, 1);
    SendOne(s, 1, Recreate(7));
    assert [Stop] + [Recreate(7)] == [Stop, Recreate(7)];
    assert Send(s, 1, Recreate(7)) == TOO_LATE;
  }

  lemma MiddleEnds()
    ensures Respects(TOO_LATE, Handle(1, RESTART), BOTH_ENDING)
  {
    OnlyChild(2);
    MarkOne(2, Termination);
    var s := Chain(Ending([]), Middle(Dies(2, Termination), 2, FailedBy(1), [Recreate(7)]), Leaf(0, NotFailed, [Suspend]));
    assert [Stop, Recreate(7)][1..] == [Recreate(7)];
    assert PopHead(TOO_LATE, 1)[1 := s[1]] == s;
    SendOne(s, 2, Stop);
    assert [Suspend] + [Stop] == [Suspend, Stop];
    assert Send(s, 2, Stop) == BOTH_ENDING;
  }

  lemma Override()
    ensures Enabled(BOTH_ENDING, Handle(1, KEEP_CHILDREN)) && Unforged(BOTH_ENDING, Handle(1, KEEP_CHILDREN))
    ensures !RespectsStops(BOTH_ENDING, Handle(1, KEEP_CHILDREN))
    ensures Moved(BOTH_ENDING, Handle(1, KEEP_CHILDREN)) == OVERRIDDEN
  {
    assert [Recreate(7)][1..] == [];
    var t := PopHead(BOTH_ENDING, 1);
    assert t == Chain(Ending([]), Middle(Dies(2, Termination), 2, FailedBy(1), []), Leaf(0, NotFailed, [Suspend, Stop]));
    assert t[1 := Overridden([])] == OVERRIDDEN;
    assert WaitsFor(BOTH_ENDING, 0, 1);
  }

  lemma SuspendFirst()
    ensures Respects(OVERRIDDEN, Handle(2, RESTART), LEAF_SUSPENDED)
  {
    assert OVERRIDDEN[2].Children() == [] && [Suspend, Stop][1..] == [Stop];
    assert OVERRIDDEN[2 := Leaf(1, NotFailed, [Stop])] == LEAF_SUSPENDED;
  }

  lemma LeafEnds()
    ensures Respects(LEAF_SUSPENDED, Handle(2, RESTART), LEAF_GONE)
  {
    assert [Stop][1..] == [] && LEAF_SUSPENDED[2].Children() == [];
    var t := PopHead(LEAF_SUSPENDED, 2);
    assert t == Chain(Ending([]), Overridden([]), Leaf(1, NotFailed, []));
    var u := t[2 := GONE];
    var ws := [Watch(1, Supervision)];
    assert ws[..0] == [] && NotifyEach(u, ws[..0], 2) == u;
    assert NotifyEach(u, ws, 2) == Send(u, 1, DeathWatchNotification(2));
    AppendToEmpty(DeathWatchNotification(2));
    assert Send(u, 1, DeathWatchNotification(2)) == LEAF_GONE;
    WatchedStays(Dies(2, Recreation(7)), 2);
    assert LEAF_GONE[1 := LEAF_GONE[1]] == LEAF_GONE;
  }

  lemma RestartInstead()
    ensures Respects(LEAF_GONE, Handle(1, RESTART), STRANDED)
  {
    var r := Dies(2, Recreation(7));
    RemoveOnly(2, 7);
    WatchesMember(r.watching, Watch(2, Supervision));
    assert r.watching[..0] == [] && Retained(r.watching[..0], 2, None) == [];
    assert Retained(r.watching, 2, None) == [];
    assert Notified(r, 2) == (CHILDLESS, Some(Recreation(7)));
    assert [DeathWatchNotification(2)][1..] == [];
    var t := LEAF_GONE[1 := Overridden([]).(registry := CHILDLESS)];
    assert PopHead(LEAF_GONE[1 := LEAF_GONE[1].(registry := CHILDLESS)], 1) == t;
    assert t[1 := STRANDED[1]] == STRANDED;
  }

  /** Of its moves exactly number `k`, if there is one, overrides a stop, and none is forged. */
  ghost predicate OnlyOverride(states: seq<System>, moves: seq<Move>, k: nat)
    requires |moves| < |states|
  {
    forall i {:trigger RespectsAt(states, moves, i)} :: 0 <= i < |moves| ==>
      Unforged(states[i], moves[i]) && (RespectsAt(states, moves, i) <==> i != k)
  }

  lemma ExtendStops(states: seq<System>, moves: seq<Move>, s: System, m: Move, t: System, k: nat)
    requires Reaches(states, moves, s) && OnlyOverride(states, moves, k)
    requires Enabled(s, m) && Unforged(s, m) && Moved(s, m) == t && (RespectsStops(s, m) <==> |moves| != k)
    ensures Reaches(states + [t], moves + [m], t) && OnlyOverride(states + [t], moves + [m], k)
  {
    var ss, ms, n := states + [t], moves + [m], |moves|;
    assert ss[n] == s && ss[n + 1] == t && ms[n] == m;
    forall i | 0 <= i < |ms|
      ensures Happens(ss, ms, i) && Unforged(ss[i], ms[i]) && (RespectsAt(ss, ms, i) <==> i != k)
    {
      if i < n {
        assert Happens(states, moves, i);
        assert RespectsAt(states, moves, i) <==> i != k;
        assert ss[i] == states[i] && ss[i + 1] == states[i + 1] && ms[i] == moves[i];
      }
    }
  }

  lemma GrownRespects() returns (states: seq<System>, moves: seq<Move>)
    ensures Reaches(states, moves, GROWN) && OnlyOverride(states, moves, 9) && |moves| == 4
  {
    var one, two := Pair(Top([]), Middle(CHILDLESS, 0, NotFailed, [Create])), Pair(Top([]), Middle(CHILDLESS, 0, NotFailed, []));
    var m := Middle(Watching(2), 0, NotFailed, []);
    var three := Chain(Top([]), m, Leaf(0, NotFailed, [Create]));
    AtRoot(4);
    states, moves := [ROOT], [];
    SpawnMiddle();
    ExtendStops(states, moves, ROOT, SpawnChild(0, 1), one, 9);
    states, moves := states + [one], moves + [SpawnChild(0, 1)];
    CreateMiddleAlone();
    ExtendStops(states, moves, one, Handle(1, RESTART), two, 9);
    states, moves := states + [two], moves + [Handle(1, RESTART)];
    SpawnLeaf(0, NotFailed, []);
    ExtendStops(states, moves, two, SpawnChild(1, 2), three, 9);
    states, moves := states + [three], moves + [SpawnChild(1, 2)];
    CreateLeaf(m);
    ExtendStops(states, moves, three, Handle(2, RESTART), GROWN, 9);
    states, moves := states + [GROWN], moves + [Handle(2, RESTART)];
  }

  lemma BothEnd() returns (states: seq<System>, moves: seq<Move>)
    ensures Reaches(states, moves, BOTH_ENDING) && OnlyOverride(states, moves, 9) && |moves| == 9
  {
    states, moves := GrownRespects();
    AskStop();
    ExtendStops(states, moves, GROWN, External(0, Stop), ASKED, 9);
    states, moves := states + [ASKED], moves + [External(0, Stop)];
    FailBehind();
    ExtendStops(states, moves, ASKED, Report(1, 7), BEHIND, 9);
    states, moves := states + [BEHIND], moves + [Report(1, 7)];
    BeginEnd();
    ExtendStops(states, moves, BEHIND, Handle(0, RESTART), ENDING, 9);
    states, moves := states + [ENDING], moves + [Handle(0, RESTART)];
    AnswerTooLate();
    ExtendStops(states, moves, ENDING, Handle(0, RESTART), TOO_LATE, 9);
    states, moves := states + [TOO_LATE], moves + [Handle(0, RESTART)];
    MiddleEnds();
    ExtendStops(states, moves, TOO_LATE, Handle(1, RESTART), BOTH_ENDING, 9);
    states, moves := states + [BOTH_ENDING], moves + [Handle(1, RESTART)];
  }

  lemma StrandedRun() returns (states: seq<System>, moves: seq<Move>)
    ensures Reaches(states, moves, STRANDED) && OnlyOverride(states, moves, 9) && |moves| == 13
  {
    states, moves := BothEnd();
    Override();
    ExtendStops(states, moves, BOTH_ENDING, Handle(1, KEEP_CHILDREN), OVERRIDDEN, 9);
    states, moves := states + [OVERRIDDEN], moves + [Handle(1, KEEP_CHILDREN)];
    SuspendFirst();
    ExtendStops(states, moves, OVERRIDDEN, Handle(2, RESTART), LEAF_SUSPENDED, 9);
    states, moves := states + [LEAF_SUSPENDED], moves + [Handle(2, RESTART)];
    LeafEnds();
    ExtendStops(states, moves, LEAF_SUSPENDED, Handle(2, RESTART), LEAF_GONE, 9);
    states, moves := states + [LEAF_GONE], moves + [Handle(2, RESTART)];
    RestartInstead();
    ExtendStops(states, moves, LEAF_GONE, Handle(1, RESTART), STRANDED, 9);
    states, moves := states + [STRANDED], moves + [Handle(1, RESTART)];
  }

  /**
   A whole unforged run with one Recreate that overrides a stop: actor 0 is left waiting for
   actor 1, which has restarted, and nobody has a message to handle.
   */
  lemma OverrideStrands() returns (states: seq<System>, moves: seq<Move>)
    ensures UnforgedRun(states, moves) && |moves| == 13 && OnlyOverride(states, moves, 9)
    ensures AllIdle(states[13]) && Open(states[13], 0) && Open(states[13], 1)
    ensures states[13][0].registry.children == Terminating([Child(1, 0)], [1], Termination)
  {
    states, moves := StrandedRun();
    assert AllIdle(STRANDED);
    forall i | 0 <= i < |moves| ensures Unforged(states[i], moves[i]) {
      assert RespectsAt(states, moves, i) <==> i != 9;
    }
  }

  // ---------- a child spawned by a stopping parent ----------

  const LONE: System := Pair(Top([]), Middle(CHILDLESS, 0, NotFailed, []))

  const TOLD: System := Pair(Top([Stop]), Middle(CHILDLESS, 0, NotFailed, []))

  const LEAVING: System := Pair(Ending([]), Middle(CHILDLESS, 0, NotFailed, [Stop]))

  /** The registry of actor 0 with a child it does not wait for. */
  const LATECOMER: Registry :=
    Registry(Terminating([Child(1, 0), Child(2, 0)], [1], Termination), [Watch(1, Supervision), Watch(2, Supervision)])

  function Leaver(inbox: seq<SysMsg>): Cell { Actor(None, LATECOMER, 1, NotFailed, inbox) }

  function Second(inbox: seq<SysMsg>): Cell { Actor(Some(0), CHILDLESS, 0, NotFailed, inbox) }

  const JOINED: System := Chain(Leaver([]), Middle(CHILDLESS, 0, NotFailed, [Stop]), Second([Create]))

  const SETTLED: System := Chain(Leaver([]), Middle(CHILDLESS, 0, NotFailed, [Stop]), Second([]))

  const OUT: Cell := Cell(Some(0), CHILDLESS, [], NotFailed, None, 0, true, [])

  const LAST_WORD: System := Chain(Leaver([DeathWatchNotification(1)]), OUT, Second([]))

  const ENDED: Cell := Cell(None, Registry(Terminated, [Watch(2, Supervision)]), [], NotFailed, None, 1, true, [])

  /** Actor 0 has ended, and its child 2 runs on. */
  const ORPHANED: System := Chain(ENDED, OUT, Second([]))

  /** An unforged move that leaves nobody behind, and where it leads. */
  ghost predicate Minds(s: System, m: Move, t: System) {
    Enabled(s, m) && Unforged(s, m) && !Orphaning(s, m) && Moved(s, m) == t
  }

  lemma TellTop()
    ensures Minds(LONE, External(0, Stop), TOLD)
  {
    AppendToEmpty(Stop);
    assert Send(LONE, 0, Stop) == TOLD;
  }

  lemma TopLeaves()
    ensures Minds(TOLD, Handle(0, RESTART), LEAVING)
  {
    OnlyChild(1);
    MarkOne(1, Termination);
    var s := Pair(Ending([]), Middle(CHILDLESS, 0, NotFailed, []));
    assert [Stop][1..] == [];
    assert PopHead(TOLD, 0)[0 := s[0]] == s;
    SendOne(s, 1, Stop);
    AppendToEmpty(Stop);
    assert Send(s, 1, Stop) == LEAVING;
  }

  lemma SpawnLate()
    ensures Enabled(LEAVING, SpawnChild(0, 2)) && Unforged(LEAVING, SpawnChild(0, 2)) && Orphaning(LEAVING, SpawnChild(0, 2))
    ensures Moved(LEAVING, SpawnChild(0, 2)) == JOINED
  {
    var c := [Child(1, 0)];
    assert c[0].pid == 1 && c + [Child(2, 0)] == [Child(1, 0), Child(2, 0)];
    assert AddChild(Dies(1, Termination).children, 2) == LATECOMER.children;
    assert [Watch(1, Supervision)] + [Watch(2, Supervision)] == LATECOMER.watching;
    assert Spawn(LEAVING, 0, 2) == JOINED;
  }

  lemma CreateLate()
    ensures Minds(JOINED, Handle(2, RESTART), SETTLED)
  {
    assert [Create][1..] == [];
    assert PopHead(JOINED, 2) == SETTLED;
  }

  lemma FirstEnds()
    ensures Minds(SETTLED, Handle(1, RESTART), LAST_WORD)
  {
    assert [Stop][1..] == [] && SETTLED[1].Children() == [];
    var t := PopHead(SETTLED, 1);
    assert t == Chain(Leaver([]), Middle(CHILDLESS, 0, NotFailed, []), Second([]));
    var u := t[1 := OUT];
    var ws := [Watch(0, Supervision)];
    assert ws[..0] == [] && NotifyEach(u, ws[..0], 1) == u;
    assert NotifyEach(u, ws, 1) == Send(u, 0, DeathWatchNotification(1));
    AppendToEmpty(DeathWatchNotification(1));
    assert Send(u, 0, DeathWatchNotification(1)) == LAST_WORD;
    assert LATECOMER.watching[0] == Watch(1, Supervision);
    WatchedStays(LATECOMER, 1);
    assert LAST_WORD[0 := LAST_WORD[0]] == LAST_WORD;
  }

  lemma LatecomerDropped()
    ensures Notified(LATECOMER, 1) == (Registry(Terminated, [Watch(2, Supervision)]), Some(Termination))
  {
    var w, d := LATECOMER.watching, [1];
    assert w[0].pid == 1 && Watches(w, 1);
    assert w[..1] == [Watch(1, Supervision)] && w[..1][..0] == [];
    assert Retained(w[..1], 1, None) == [];
    assert Retained(w, 1, None) == [] + [Watch(2, Supervision)] == [Watch(2, Supervision)];
    assert d[..0] == [] && WithoutPids(d, {1}) == WithoutPids(d[..0], {1});
  }

  lemma TopEnds()
    ensures Minds(LAST_WORD, Handle(0, RESTART), ORPHANED)
  {
    LatecomerDropped();
    assert [DeathWatchNotification(1)][1..] == [];
    var r := Registry(Terminated, [Watch(2, Supervision)]);
    var t := LAST_WORD[0 := Leaver([]).(registry := r)];
    assert PopHead(LAST_WORD[0 := LAST_WORD[0].(registry := r)], 0) == t;
    assert t[0 := ENDED] == ORPHANED && NotifyEach(ORPHANED, [], 0) == ORPHANED;
  }

  /** Of its moves exactly number `k`, if there is one, leaves a child behind, and none is forged. */
  ghost predicate OnlyOrphans(states: seq<System>, moves: seq<Move>, k: nat)
    requires |moves| < |states|
  {
    forall i {:trigger KeepsAt(states, moves, i)} :: 0 <= i < |moves| ==>
      Unforged(states[i], moves[i]) && (KeepsAt(states, moves, i) <==> i != k)
  }

  lemma ExtendKeeps(states: seq<System>, moves: seq<Move>, s: System, m: Move, t: System, k: nat)
    requires Reaches(states, moves, s) && OnlyOrphans(states, moves, k)
    requires Enabled(s, m) && Unforged(s, m) && Moved(s, m) == t && (Orphaning(s, m) <==> |moves| == k)
    ensures Reaches(states + [t], moves + [m], t) && OnlyOrphans(states + [t], moves + [m], k)
  {
    var ss, ms, n := states + [t], moves + [m], |moves|;
    assert ss[n] == s && ss[n + 1] == t && ms[n] == m;
    forall i | 0 <= i < |ms|
      ensures Happens(ss, ms, i) && Unforged(ss[i], ms[i]) && (KeepsAt(ss, ms, i) <==> i != k)
    {
      if i < n {
        assert Happens(states, moves, i);
        assert KeepsAt(states, moves, i) <==> i != k;
        assert ss[i] == states[i] && ss[i + 1] == states[i + 1] && ms[i] == moves[i];
      }
    }
  }

  lemma Leaving() returns (states: seq<System>, moves: seq<Move>)
    ensures Reaches(states, moves, LEAVING) && OnlyOrphans(states, moves, 4) && |moves| == 4
  {
    var one := Pair(Top([]), Middle(CHILDLESS, 0, NotFailed, [Create]));
    AtRoot(4);
    states, moves := [ROOT], [];
    SpawnMiddle();
    ExtendKeeps(states, moves, ROOT, SpawnChild(0, 1), one, 4);
    states, moves := states + [one], moves + [SpawnChild(0, 1)];
    CreateMiddleAlone();
    ExtendKeeps(states, moves, one, Handle(1, RESTART), LONE, 4);
    states, moves := states + [LONE], moves + [Handle(1, RESTART)];
    TellTop();
    ExtendKeeps(states, moves, LONE, External(0, Stop), TOLD, 4);
    states, moves := states + [TOLD], moves + [External(0, Stop)];
    TopLeaves();
    ExtendKeeps(states, moves, TOLD, Handle(0, RESTART), LEAVING, 4);
    states, moves := states + [LEAVING], moves + [Handle(0, RESTART)];
  }

  lemma OrphanRun() returns (states: seq<System>, moves: seq<Move>)
    ensures Reaches(states, moves, ORPHANED) && OnlyOrphans(states, moves, 4) && |moves| == 8
  {
    states, moves := Leaving();
    SpawnLate();
    ExtendKeeps(states, moves, LEAVING, SpawnChild(0, 2), JOINED, 4);
    states, moves := states + [JOINED], moves + [SpawnChild(0, 2)];
    CreateLate();
    ExtendKeeps(states, moves, JOINED, Handle(2, RESTART), SETTLED, 4);
    states, moves := states + [SETTLED], moves + [Handle(2, RESTART)];
    FirstEnds();
    ExtendKeeps(states, moves, SETTLED, Handle(1, RESTART), LAST_WORD, 4);
    states, moves := states + [LAST_WORD], moves + [Handle(1, RESTART)];
    TopEnds();
    ExtendKeeps(states, moves, LAST_WORD, Handle(0, RESTART), ORPHANED, 4);
    states, moves := states + [ORPHANED], moves + [Handle(0, RESTART)];
  }

  /**
   A whole unforged run with one spawn by a stopping parent: the parent ends without waiting
   for that child, which runs on with nothing in flight.
   */
  lemma SpawnWhileStoppingOrphans() returns (states: seq<System>, moves: seq<Move>)
    ensures UnforgedRun(states, moves) && |moves| == 8 && OnlyOrphans(states, moves, 4)
    ensures AllIdle(states[8]) && Open(states[8], 2) && states[8][2].parent == Some(0) && !Open(states[8], 0)
    ensures !Facing(states[8], 2)
  {
    states, moves := OrphanRun();
    assert AllIdle(ORPHANED);
    forall i | 0 <= i < |moves| ensures Unforged(states[i], moves[i]) {
      assert KeepsAt(states, moves, i) <==> i != 4;
    }
  }
}
