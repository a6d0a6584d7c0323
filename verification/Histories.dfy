/** Building runs of the tree move by move, for the cases that show a condition is needed. */
module Histories {
  import opened Options
  import opened ChildRegistry
  import opened DeathWatch
  import opened Supervision
  import opened SuspendCoverage

  /** A run that ends in `t`. */
  ghost predicate Reaches(states: seq<System>, moves: seq<Move>, t: System) {
    IsHistory(states, moves) && states[|moves|] == t
  }

  /** Of its moves exactly number `k`, if there is one, is out of scope. */
  ghost predicate OnlyOut(states: seq<System>, moves: seq<Move>, k: nat) {
    forall i {:trigger InScopeAt(states, moves, i)} :: 0 <= i < |moves| ==> (InScopeAt(states, moves, i) <==> i != k)
  }

  lemma AtRoot(k: nat)
    ensures Reaches([ROOT], [], ROOT) && OnlyOut([ROOT], [], k)
  {
  }

  /** One move more. */
  lemma Extend(states: seq<System>, moves: seq<Move>, s: System, m: Move, t: System, k: nat)
    requires Reaches(states, moves, s) && OnlyOut(states, moves, k)
    requires Enabled(s, m) && Moved(s, m) == t && (InScope(s, m) <==> |moves| != k)
    ensures Reaches(states + [t], moves + [m], t) && OnlyOut(states + [t], moves + [m], k)
  {
    var ss, ms, n := states + [t], moves + [m], |moves|;
    assert ss[n] == s && ss[n + 1] == t && ms[n] == m;
    forall i | 0 <= i < |ms| ensures Happens(ss, ms, i) && (InScopeAt(ss, ms, i) <==> i != k) {
      if i < n {
        assert Happens(states, moves, i);
        assert InScopeAt(states, moves, i) <==> i != k;
        assert ss[i] == states[i] && ss[i + 1] == states[i + 1] && ms[i] == moves[i];
      }
    }
  }

  /** Hooks that succeed, with the answer to a failure, and whether a restart stops the children. */
  function Answer(directive: Directive, kind: StrategyKind, stops: bool): Hooks {
    Hooks(true, true, stops, true, true, directive, kind, 0, 0)
  }

  /** A cell with one child, under supervision watch. */
  function Watching(child: Pid): Registry {
    Registry(Normal([Child(child, 0)]), [Watch(child, Supervision)])
  }

  const CHILDLESS: Registry := Registry(Empty, [])

  lemma OnlyChild(child: Pid)
    ensures Watching(child).children.Children() == [child]
    ensures TouchStats(Watching(child).children, child, 0) == Watching(child).children
    ensures Watching(child).children.Registered(child)
    ensures forall x :: Watching(child).children.Registered(x) ==> x == child
  {
    var c := [Child(child, 0)];
    assert c[0].pid == child;
    assert WithStats(c, child, 0) == c;
  }

  lemma SendOne(s: System, x: Pid, m: SysMsg)
    ensures SendEach(s, [x], m) == Send(s, x, m)
  {
    assert [x][..0] == [];
    assert SendEach(s, [x][..0], m) == s;
  }

  lemma AppendToEmpty(m: SysMsg)
    ensures [] + [m] == [m]
  {
  }

  lemma NoSiblings(s: System, x: Pid)
    ensures SuspendSiblings(s, [x], x) == s
  {
    assert [x][..0] == [];
    assert SuspendSiblings(s, [x][..0], x) == s;
  }

  /** A cell: its parent, its registry, and what changes in these runs. */
  function Actor(parent: Option<Pid>, registry: Registry, suspends: nat, failed: FailedInfo, inbox: seq<SysMsg>): Cell {
    Cell(parent, registry, if parent.Some? then [Watch(parent.value, Supervision)] else [], failed, None, suspends, false, inbox)
  }
}
