/**
 User watches over whole runs of the tree: who asked an actor to be told of its end, and has
 not taken that back, is told when it ends, once, and nobody else is.
 */
module UserWatch {
  import opened Options
  import opened Lists
  import opened ChildRegistry
  import opened DeathWatch
  import opened Supervision
  import opened SuspendCoverage
  import opened TreeWatch
  import opened TreeWaits
  import opened LocalView
  import opened FailureLedger

  /** At move `k`, `p` handles `msg`. */
  ghost predicate HandledAt(states: seq<System>, moves: seq<Move>, k: nat, p: Pid, msg: SysMsg) {
    Happens(states, moves, k) && moves[k].Handle? && moves[k].pid == p && states[k][p].inbox[0] == msg
  }

  /** Of the watch requests of `w` that `p` handled before state `i`, the last one asks to be told. */
  ghost predicate Asked(states: seq<System>, moves: seq<Move>, i: nat, p: Pid, w: Pid) {
    i > 0 && (HandledAt(states, moves, i - 1, p, WatchFrom(w))
              || (!HandledAt(states, moves, i - 1, p, UnwatchFrom(w)) && Asked(states, moves, i - 1, p, w)))
  }

  // ---------- who is on the list ----------

  /** Nobody is listed twice for the same kind, and only the parent supervises. */
  ghost predicate Listed(c: Cell) {
    Distinct(c.watchers) && forall w: Pid :: Watch(w, Supervision) in c.watchers ==> c.parent == Some(w)
  }

  lemma {:induction false} RetainedDistinct(watching: seq<Watch>, pid: Pid, kind: Option<WatchKind>)
    requires Distinct(watching)
    ensures Distinct(Retained(watching, pid, kind))
  {
    if watching != [] {
      var front, last := watching[..|watching| - 1], watching[|watching| - 1];
      RetainedDistinct(front, pid, kind);
      assert last !in front;
    }
  }

  lemma WatchersNext(s: System, m: Move, x: Pid)
    requires Tied(s) && Enabled(s, m) && Open(s, x) && !EndsAt(s, m, x) && Listed(s[x])
    ensures x in Moved(s, m) && Listed(Moved(s, m)[x]) && Moved(s, m)[x].watchers == WatchersAfter(s, m, x)
  {
    MoveAt(s, m, x);
    if m.Handle? && m.pid == x && s[x].inbox[0].UnwatchFrom? {
      RetainedDistinct(s[x].watchers, s[x].inbox[0].pid, Some(User));
    }
  }

  ghost predicate Takes(s: System, m: Move, p: Pid, msg: SysMsg)
    requires Enabled(s, m)
  {
    m.Handle? && m.pid == p && s[p].inbox[0] == msg
  }

  lemma ListNext(s: System, m: Move, p: Pid, w: Pid)
    requires Tied(s) && Enabled(s, m) && Open(Moved(s, m), p) && (Open(s, p) ==> Listed(s[p]))
    ensures Listed(Moved(s, m)[p]) && (p in s ==> Open(s, p)) && (p !in s ==> m.pid != p)
    ensures Watch(w, User) in Moved(s, m)[p].watchers <==>
              Takes(s, m, p, WatchFrom(w)) || (!Takes(s, m, p, UnwatchFrom(w)) && Open(s, p) && Watch(w, User) in s[p].watchers)
  {
    if p in s {
      MoveFinal(s, m, p);
      MoveEnds(s, m, p);
      WatchersNext(s, m, p);
    } else {
      Unborn(s, m, p);
    }
  }

  /** One move in the list of `p`. */
  lemma ListedNext(states: seq<System>, moves: seq<Move>, i: nat, p: Pid, w: Pid)
    requires UnforgedRun(states, moves) && i < |moves| && Open(states[i + 1], p)
    requires Open(states[i], p) ==>
               Listed(states[i][p]) && (Watch(w, User) in states[i][p].watchers <==> Asked(states, moves, i, p, w))
    requires p !in states[i] ==> !Asked(states, moves, i, p, w)
    ensures Listed(states[i + 1][p]) && (Watch(w, User) in states[i + 1][p].watchers <==> Asked(states, moves, i + 1, p, w))
  {
    assert Happens(states, moves, i);
    RunTied(states, moves, i);
    ListNext(states[i], moves[i], p, w);
  }

  lemma {:induction false} UnbornUnasked(states: seq<System>, moves: seq<Move>, i: nat, p: Pid, w: Pid)
    requires UnforgedRun(states, moves) && i < |states| && p !in states[i]
    ensures !Asked(states, moves, i, p, w)
  {
    if i > 0 {
      assert Happens(states, moves, i - 1);
      RunTied(states, moves, i - 1);
      MoveFinal(states[i - 1], moves[i - 1], p);
      UnbornUnasked(states, moves, i - 1, p, w);
    }
  }

  /** In every run an open actor has exactly those on its list who asked last to be told, each once. */
  lemma {:induction false} WatchersExact(states: seq<System>, moves: seq<Move>, i: nat, p: Pid, w: Pid)
    requires UnforgedRun(states, moves) && i < |states| && Open(states[i], p)
    ensures Listed(states[i][p])
    ensures Watch(w, User) in states[i][p].watchers <==> Asked(states, moves, i, p, w)
  {
    if i > 0 {
      if p !in states[i - 1] {
        UnbornUnasked(states, moves, i - 1, p, w);
      }
      if Open(states[i - 1], p) {
        WatchersExact(states, moves, i - 1, p, w);
      }
      ListedNext(states, moves, i - 1, p, w);
    }
  }

  // ---------- who is told ----------

  function Copies(m: SysMsg, n: nat): seq<SysMsg> { seq(n, i => m) }

  /** A list without repetitions brings one notification for each of the two kinds of watch. */
  lemma {:induction false} NoticesExact(watchers: seq<Watch>, q: Pid, dead: Pid)
    requires Distinct(watchers)
    ensures Notices(watchers, q, dead)
            == Copies(DeathWatchNotification(dead),
                      (if Watch(q, User) in watchers then 1 else 0) + (if Watch(q, Supervision) in watchers then 1 else 0))
  {
    if watchers != [] {
      var front, last := watchers[..|watchers| - 1], watchers[|watchers| - 1];
      NoticesExact(front, q, dead);
      assert watchers == front + [last] && last !in front;
      assert forall v :: v in watchers <==> v in front || v == last;
      assert last.kind.User? || last.kind.Supervision?;
      assert last == Watch(last.pid, last.kind);
      var n := (if Watch(q, User) in front then 1 else 0) + (if Watch(q, Supervision) in front then 1 else 0);
      assert Copies(DeathWatchNotification(dead), n) + [DeathWatchNotification(dead)] == Copies(DeathWatchNotification(dead), n + 1);
    }
  }

  /** How often the end of `p` is told to `w`. */
  ghost function Tellings(states: seq<System>, moves: seq<Move>, i: nat, p: Pid, w: Pid): nat
    requires i < |states| && p in states[i]
  {
    (if Asked(states, moves, i, p, w) then 1 else 0) + (if states[i][p].parent == Some(w) then 1 else 0)
  }

  /** The end of `p` in the inbox of somebody else. */
  lemma EndMail(s: System, m: Move, p: Pid, w: Pid)
    requires Tied(s) && Enabled(s, m) && EndsAt(s, m, p) && Open(s, w) && w != p
    ensures w in Moved(s, m) && Moved(s, m)[w].inbox == s[w].inbox + Notices(s[p].watchers, w, p)
  {
    MoveAt(s, m, w);
  }

  /**
   When an actor ends, every open actor is told once if it asked to be and did not take that
   back, once more if it is the parent, and not at all otherwise.
   */
  lemma EndTellsWatchers(states: seq<System>, moves: seq<Move>, i: nat, p: Pid, w: Pid)
    requires UnforgedRun(states, moves) && i < |moves| && Open(states[i], p) && !Open(states[i + 1], p)
    requires Open(states[i], w) && w != p
    ensures w in states[i + 1]
    ensures states[i + 1][w].inbox == states[i][w].inbox + Copies(DeathWatchNotification(p), Tellings(states, moves, i, p, w))
  {
    var s, m := states[i], moves[i];
    assert Happens(states, moves, i);
    RunTied(states, moves, i);
    MoveEnds(s, m, p);
    EndMail(s, m, p, w);
    WatchersExact(states, moves, i, p, w);
    NoticesExact(s[p].watchers, w, p);
    assert CellTied(s, p);
  }

  /** The move that ends `p`, which is open at `j` and no more at `i`. */
  lemma {:induction false} EndOf(states: seq<System>, moves: seq<Move>, j: nat, i: nat, p: Pid) returns (e: nat)
    requires IsHistory(states, moves) && j < i < |states| && Open(states[j], p) && !Open(states[i], p)
    ensures j <= e < i && Open(states[e], p) && !Open(states[e + 1], p)
  {
    if Open(states[i - 1], p) {
      e := i - 1;
    } else {
      e := EndOf(states, moves, j, i - 1, p);
    }
  }

  lemma {:induction false} StillAsked(states: seq<System>, moves: seq<Move>, j: nat, i: nat, p: Pid, w: Pid)
    requires j < i && HandledAt(states, moves, j, p, WatchFrom(w))
    requires forall k :: j < k < i ==> !HandledAt(states, moves, k, p, UnwatchFrom(w))
    ensures Asked(states, moves, i, p, w)
  {
    if j < i - 1 {
      StillAsked(states, moves, j, i - 1, p, w);
      assert !HandledAt(states, moves, i - 1, p, UnwatchFrom(w));
    }
  }

  /** `w` was told of the end of `p` at move `e`. */
  ghost predicate ToldAt(states: seq<System>, e: nat, p: Pid, w: Pid) {
    && e + 1 < |states| && Open(states[e], p) && !Open(states[e + 1], p) && w in states[e] && w in states[e + 1]
    && states[e + 1][w].inbox
       == states[e][w].inbox + Copies(DeathWatchNotification(p), if states[e][p].parent == Some(w) then 2 else 1)
  }

  /**
   No watch is lost: in every run without forged messages, once `p` has handled the request of
   `w` and as long as `w` does not take it back, `p` is open with `w` on its list, or `w` was
   told when it ended, unless `w` had ended before.
   */
  lemma WatcherIsTold(states: seq<System>, moves: seq<Move>, j: nat, i: nat, p: Pid, w: Pid)
    requires UnforgedRun(states, moves) && j < i < |states| && HandledAt(states, moves, j, p, WatchFrom(w)) && w != p
    requires forall k :: j < k < i ==> !HandledAt(states, moves, k, p, UnwatchFrom(w))
    ensures if Open(states[i], p) then Watch(w, User) in states[i][p].watchers
            else exists e :: j < e < i && (ToldAt(states, e, p, w) || !Open(states[e], w))
  {
    if Open(states[i], p) {
      StillAsked(states, moves, j, i, p, w);
      WatchersExact(states, moves, i, p, w);
    } else {
      var e := EndOf(states, moves, j, i, p);
      assert Happens(states, moves, e);
      RunTied(states, moves, e);
      MoveEnds(states[e], moves[e], p);
      assert e != j;
      StillAsked(states, moves, j, e, p, w);
      if Open(states[e], w) {
        EndTellsWatchers(states, moves, e, p, w);
        assert ToldAt(states, e, p, w);
      }
    }
  }

  lemma ShutNext(states: seq<System>, moves: seq<Move>, k: nat, p: Pid)
    requires UnforgedRun(states, moves) && k < |moves| && p in states[k]
    ensures p in states[k + 1] && (!Open(states[k], p) ==> !Open(states[k + 1], p))
  {
    assert Happens(states, moves, k);
    RunTied(states, moves, k);
    MoveFinal(states[k], moves[k], p);
  }

  /** And an actor ends once, so nobody is told twice of the same watch. */
  lemma {:induction false} EndsOnce(states: seq<System>, moves: seq<Move>, e: nat, i: nat, p: Pid)
    requires UnforgedRun(states, moves) && e < i < |states| && Open(states[e], p) && !Open(states[e + 1], p)
    ensures p in states[i] && !Open(states[i], p)
  {
    if e < i - 1 {
      EndsOnce(states, moves, e, i - 1, p);
    }
    ShutNext(states, moves, i - 1, p);
  }
}
