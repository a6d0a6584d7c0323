/**
 Why the coverage theorem asks that a Resume answer reach the failed child alone: under
 AllForOne a sibling is resumed before its own report is answered, and its restart
 then finds a mailbox that is not suspended.
 */
module ResumeScope {
  import opened Options
  import opened ChildRegistry
  import opened DeathWatch
  import opened Supervision
  import opened SuspendCoverage
  import opened Histories

  const PAIR: seq<Child> := [Child(1, 0), Child(2, 0)]

  const BOTH: Registry := Registry(Normal(PAIR), [Watch(1, Supervision), Watch(2, Supervision)])

  function Guardian(inbox: seq<SysMsg>): Cell { Actor(None, BOTH, 0, NotFailed, inbox) }

  function Worker(suspends: nat, failed: FailedInfo, inbox: seq<SysMsg>): Cell {
    Actor(Some(0), CHILDLESS, suspends, failed, inbox)
  }

  /** A guardian 0 with workers 1 and 2. */
  function Trio(inbox: seq<SysMsg>, w: Cell, x: Cell): System {
    map[0 := Guardian(inbox), 1 := w, 2 := x]
  }

  const FIRST: System := map[0 := Actor(None, Watching(1), 0, NotFailed, []), 1 := Worker(0, NotFailed, [Create])]

  const SECOND: System := Trio([], Worker(0, NotFailed, [Create]), Worker(0, NotFailed, [Create]))

  const ONE_CREATED: System := Trio([], Worker(0, NotFailed, []), Worker(0, NotFailed, [Create]))

  const CREATED: System := Trio([], Worker(0, NotFailed, []), Worker(0, NotFailed, []))

  const ONE_FAILED: System := Trio([Failure(1, 7)], Worker(1, FailedBy(1), []), Worker(0, NotFailed, []))

  /** Both workers have failed and reported. */
  const BOTH_FAILED: System := Trio([Failure(1, 7), Failure(2, 7)], Worker(1, FailedBy(1), []), Worker(1, FailedBy(2), []))

  /** The first report was answered with Resume for all. */
  const BOTH_RESUMED: System := Trio([Failure(2, 7)], Worker(1, FailedBy(1), [Resume]), Worker(1, FailedBy(2), [Resume]))

  /** Worker 2 has taken its Resume, though its own report is still unanswered. */
  const ONE_RUNNING: System := Trio([Failure(2, 7)], Worker(1, FailedBy(1), [Resume]), Worker(0, NotFailed, []))

  /** The report of worker 2 was answered with a restart. */
  const RESTARTING: System := Trio([], Worker(1, FailedBy(1), [Resume]), Worker(0, NotFailed, [Recreate(7)]))

  const RESUME_ALL: Hooks := Answer(ResumeChild, AllForOne, true)

  const RESTART: Hooks := Answer(RestartChild, OneForOne, true)

  lemma SpawnFirst()
    ensures Enabled(ROOT, SpawnChild(0, 1)) && Moved(ROOT, SpawnChild(0, 1)) == FIRST && InScope(ROOT, SpawnChild(0, 1))
  {
    var none: seq<Watch> := [];
    assert none + [Watch(1, Supervision)] == [Watch(1, Supervision)];
    assert Spawn(ROOT, 0, 1) == FIRST;
  }

  lemma SpawnSecond()
    ensures Enabled(FIRST, SpawnChild(0, 2)) && Moved(FIRST, SpawnChild(0, 2)) == SECOND && InScope(FIRST, SpawnChild(0, 2))
  {
    OnlyChild(1);
    assert [Child(1, 0)] + [Child(2, 0)] == PAIR;
    assert AddChild(Watching(1).children, 2) == Normal(PAIR);
    assert [Watch(1, Supervision)] + [Watch(2, Supervision)] == BOTH.watching;
    assert Spawn(FIRST, 0, 2) == SECOND;
  }

  lemma CreateFirst()
    ensures Enabled(SECOND, Handle(1, RESTART)) && Moved(SECOND, Handle(1, RESTART)) == ONE_CREATED && InScope(SECOND, Handle(1, RESTART))
  {
    assert [Create][1..] == [];
    assert PopHead(SECOND, 1) == ONE_CREATED;
  }

  lemma CreateSecond()
    ensures Enabled(ONE_CREATED, Handle(2, RESTART)) && Moved(ONE_CREATED, Handle(2, RESTART)) == CREATED && InScope(ONE_CREATED, Handle(2, RESTART))
  {
    assert [Create][1..] == [];
    assert PopHead(ONE_CREATED, 2) == CREATED;
  }

  lemma FailFirst()
    ensures Enabled(CREATED, Report(1, 7)) && Moved(CREATED, Report(1, 7)) == ONE_FAILED && InScope(CREATED, Report(1, 7))
  {
    var s := Trio([], Worker(1, FailedBy(1), []), Worker(0, NotFailed, []));
    assert CREATED[1].Children() == [];
    assert CREATED[1 := Worker(1, FailedBy(1), [])] == s;
    AppendToEmpty(Failure(1, 7));
    assert Send(s, 0, Failure(1, 7)) == ONE_FAILED;
  }

  lemma FailSecond()
    ensures Enabled(ONE_FAILED, Report(2, 7)) && Moved(ONE_FAILED, Report(2, 7)) == BOTH_FAILED && InScope(ONE_FAILED, Report(2, 7))
  {
    var s := Trio([Failure(1, 7)], Worker(1, FailedBy(1), []), Worker(1, FailedBy(2), []));
    assert ONE_FAILED[2].Children() == [];
    assert ONE_FAILED[2 := Worker(1, FailedBy(2), [])] == s;
    assert [Failure(1, 7)] + [Failure(2, 7)] == [Failure(1, 7), Failure(2, 7)];
    assert Send(s, 0, Failure(2, 7)) == BOTH_FAILED;
  }

  lemma TouchOne(x: Pid)
    requires x == 1 || x == 2
    ensures TouchStats(Normal(PAIR), x, 0) == Normal(PAIR)
    ensures Normal(PAIR).Children() == [1, 2] && Normal(PAIR).Registered(x)
  {
    assert PAIR[0].pid == 1 && PAIR[1].pid == 2;
    assert WithStats(PAIR, x, 0) == PAIR;
  }

  lemma SendBoth(s: System, m: SysMsg)
    ensures SendEach(s, [1, 2], m) == Send(Send(s, 1, m), 2, m)
  {
    assert [1, 2][..1] == [1];
    SendOne(s, 1, m);
  }

  lemma ResumeAll()
    ensures Enabled(BOTH_FAILED, Handle(0, RESUME_ALL)) && !InScope(BOTH_FAILED, Handle(0, RESUME_ALL))
    ensures Moved(BOTH_FAILED, Handle(0, RESUME_ALL)) == BOTH_RESUMED
  {
    TouchOne(1);
    var s := Trio([Failure(2, 7)], Worker(1, FailedBy(1), []), Worker(1, FailedBy(2), []));
    assert PopHead(BOTH_FAILED, 0) == s;
    SendBoth(s, Resume);
    assert Affected(Normal(PAIR), 1, RESUME_ALL) == [1, 2];
    assert ChildrenAfterFailure(Normal(PAIR), 1, [1, 2], ResumeChild, 0) == Normal(PAIR);
    assert BOTH_FAILED[0 := Guardian([Failure(1, 7), Failure(2, 7)])] == BOTH_FAILED;
    AppendToEmpty(Resume);
    assert Send(Send(s, 1, Resume), 2, Resume) == BOTH_RESUMED;
    assert |[1, 2]| != |[1]|;
  }

  lemma TakeResume()
    ensures Enabled(BOTH_RESUMED, Handle(2, RESTART)) && Moved(BOTH_RESUMED, Handle(2, RESTART)) == ONE_RUNNING && InScope(BOTH_RESUMED, Handle(2, RESTART))
  {
    assert BOTH_RESUMED[2].Children() == [] && [Resume][1..] == [];
    assert BOTH_RESUMED[2 := Worker(0, NotFailed, [])] == ONE_RUNNING;
  }

  lemma RestartOne()
    ensures Enabled(ONE_RUNNING, Handle(0, RESTART)) && InScope(ONE_RUNNING, Handle(0, RESTART))
    ensures Moved(ONE_RUNNING, Handle(0, RESTART)) == RESTARTING
  {
    TouchOne(2);
    var s := Trio([], Worker(1, FailedBy(1), [Resume]), Worker(0, NotFailed, []));
    assert ONE_RUNNING[0 := Guardian([Failure(2, 7)])] == ONE_RUNNING;
    assert [Failure(2, 7)][1..] == [];
    assert PopHead(ONE_RUNNING, 0) == s;
    NoSiblings(s, 2);
    SendOne(s, 2, Recreate(7));
    AppendToEmpty(Recreate(7));
    assert Send(s, 2, Recreate(7)) == RESTARTING;
  }

  /** The run up to the point where both workers have failed, all in scope. */
  lemma BothFail() returns (states: seq<System>, moves: seq<Move>)
    ensures Reaches(states, moves, BOTH_FAILED) && OnlyOut(states, moves, 6) && |moves| == 6
  {
    AtRoot(6);
    states, moves := [ROOT], [];
    SpawnFirst();
    Extend(states, moves, ROOT, SpawnChild(0, 1), FIRST, 6);
    states, moves := states + [FIRST], moves + [SpawnChild(0, 1)];
    SpawnSecond();
    Extend(states, moves, FIRST, SpawnChild(0, 2), SECOND, 6);
    states, moves := states + [SECOND], moves + [SpawnChild(0, 2)];
    CreateFirst();
    Extend(states, moves, SECOND, Handle(1, RESTART), ONE_CREATED, 6);
    states, moves := states + [ONE_CREATED], moves + [Handle(1, RESTART)];
    CreateSecond();
    Extend(states, moves, ONE_CREATED, Handle(2, RESTART), CREATED, 6);
    states, moves := states + [CREATED], moves + [Handle(2, RESTART)];
    FailFirst();
    Extend(states, moves, CREATED, Report(1, 7), ONE_FAILED, 6);
    states, moves := states + [ONE_FAILED], moves + [Report(1, 7)];
    FailSecond();
    Extend(states, moves, ONE_FAILED, Report(2, 7), BOTH_FAILED, 6);
    states, moves := states + [BOTH_FAILED], moves + [Report(2, 7)];
  }

  /**
   A whole run, out of scope at the Resume under AllForOne and nowhere else, puts a restart
   in front of a mailbox that is not suspended.
   */
  lemma AllForOneResumeUncovers() returns (states: seq<System>, moves: seq<Move>)
    ensures IsHistory(states, moves) && |moves| == 9 && OnlyOut(states, moves, 6)
    ensures Open(states[9], 2) && states[9][2].inbox == [Recreate(7)] && !states[9][2].IsSuspended()
  {
    states, moves := BothFail();
    ResumeAll();
    Extend(states, moves, BOTH_FAILED, Handle(0, RESUME_ALL), BOTH_RESUMED, 6);
    states, moves := states + [BOTH_RESUMED], moves + [Handle(0, RESUME_ALL)];
    TakeResume();
    Extend(states, moves, BOTH_RESUMED, Handle(2, RESTART), ONE_RUNNING, 6);
    states, moves := states + [ONE_RUNNING], moves + [Handle(2, RESTART)];
    RestartOne();
    Extend(states, moves, ONE_RUNNING, Handle(0, RESTART), RESTARTING, 6);
    states, moves := states + [RESTARTING], moves + [Handle(0, RESTART)];
  }
}
