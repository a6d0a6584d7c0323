/**
 Finite directed multigraphs given by adjacency lists, as the stream plan compiler
 builds them: `g[u]` lists the targets of the arcs leaving `u`, with one entry per
 parallel arc. Paths, cycles and topological orders are defined here without
 reference to any algorithm.
 */
module StageGraph {
  import opened Lists

  type Graph = seq<seq<nat>>

  datatype Arc = Arc(src: nat, dst: nat)

  ghost predicate WellFormed(g: Graph) {
    forall u, k :: 0 <= u < |g| && 0 <= k < |g[u]| ==> g[u][k] < |g|
  }

  /** Number of occurrences of `v` in `s`. */
  ghost function Count(s: seq<nat>, v: nat): nat {
    if s == [] then 0 else (if s[0] == v then 1 else 0) + Count(s[1..], v)
  }

  /** Arcs into `v` from the first `n` vertices that are not in `done`. */
  ghost function Remaining(g: Graph, done: set<nat>, v: nat, n: nat): nat
    requires n <= |g|
  {
    if n == 0 then 0
    else Remaining(g, done, v, n - 1) + (if n - 1 in done then 0 else Count(g[n - 1], v))
  }

  ghost function InDegree(g: Graph, v: nat): nat {
    Remaining(g, {}, v, |g|)
  }

  /** The graph of a list of arcs over `n` vertices. */
  ghost function GraphOf(n: nat, arcs: seq<Arc>): (g: Graph)
    requires forall a <- arcs :: a.src < n && a.dst < n
    ensures |g| == n && WellFormed(g)
  {
    if arcs == [] then seq(n, _ => [])
    else
      var last := arcs[|arcs| - 1];
      var g := GraphOf(n, arcs[..|arcs| - 1]);
      g[last.src := g[last.src] + [last.dst]]
  }

  ghost predicate HasArc(g: Graph, u: nat, v: nat) {
    u < |g| && v < |g| && v in g[u]
  }

  ghost predicate IsPath(g: Graph, p: seq<nat>) {
    && p != []
    && p[|p| - 1] < |g|
    && (forall i {:trigger p[i]} :: 0 <= i < |p| - 1 ==> HasArc(g, p[i], p[i + 1]))
  }

  ghost predicate IsCycle(g: Graph, p: seq<nat>) {
    IsPath(g, p) && |p| >= 2 && p[0] == p[|p| - 1]
  }

  ghost predicate Acyclic(g: Graph) {
    !exists p :: IsCycle(g, p)
  }

  ghost predicate IsPermutation(order: seq<nat>, n: nat) {
    && Distinct(order)
    && (forall i :: 0 <= i < |order| ==> order[i] < n)
    && (forall v :: 0 <= v < n ==> v in order)
  }

  /** A permutation of the vertices in which every arc goes forward; a self-loop rules it out. */
  ghost predicate IsTopological(g: Graph, order: seq<nat>) {
    && IsPermutation(order, |g|)
    && (forall i, j :: 0 <= i < |order| && 0 <= j < |order| && HasArc(g, order[i], order[j]) ==> i < j)
  }

  // ---------- counting ----------

  lemma {:induction false} CountAppend(s: seq<nat>, t: seq<nat>, v: nat)
    ensures Count(s + t, v) == Count(s, v) + Count(t, v)
  {
    if s == [] {
      assert s + t == t;
    } else {
      CountAppend(s[1..], t, v);
      assert (s + t)[1..] == s[1..] + t;
    }
  }

  lemma {:induction false} CountPositive(s: seq<nat>, v: nat)
    ensures Count(s, v) > 0 <==> v in s
  {
    if s != [] {
      CountPositive(s[1..], v);
      assert s == [s[0]] + s[1..];
    }
  }

  lemma {:induction false} RemainingAfter(g: Graph, done: set<nat>, u: nat, v: nat, n: nat)
    requires u !in done && n <= |g| && u < |g|
    ensures Remaining(g, done, v, n) == Remaining(g, done + {u}, v, n) + (if u < n then Count(g[u], v) else 0)
  {
    if n > 0 {
      RemainingAfter(g, done, u, v, n - 1);
    }
  }

  lemma {:induction false} RemainingZero(g: Graph, done: set<nat>, v: nat, n: nat)
    requires n <= |g|
    ensures Remaining(g, done, v, n) == 0 <==> forall u :: 0 <= u < n && u !in done ==> v !in g[u]
  {
    if n > 0 {
      RemainingZero(g, done, v, n - 1);
      CountPositive(g[n - 1], v);
    }
  }

  /** A positive in-degree is exactly an arc into the vertex. */
  lemma InDegreePositive(g: Graph, v: nat)
    ensures InDegree(g, v) > 0 <==> exists u :: 0 <= u < |g| && v in g[u]
  {
    RemainingZero(g, {}, v, |g|);
  }

  lemma {:induction false} RemainingAppendArc(g: Graph, u: nat, w: nat, v: nat, n: nat)
    requires u < |g| && n <= |g|
    ensures Remaining(g[u := g[u] + [w]], {}, v, n) == Remaining(g, {}, v, n) + (if u < n && v == w then 1 else 0)
  {
    if n > 0 {
      RemainingAppendArc(g, u, w, v, n - 1);
      CountAppend(g[u], [w], v);
    }
  }

  /** `GraphOf` keeps every arc with its multiplicity and adds none. */
  lemma {:induction false} GraphOfCounts(n: nat, arcs: seq<Arc>, u: nat, v: nat)
    requires forall a <- arcs :: a.src < n && a.dst < n
    requires u < n
    ensures Count(GraphOf(n, arcs)[u], v) == multiset(arcs)[Arc(u, v)]
  {
    if arcs != [] {
      var front, last := arcs[..|arcs| - 1], arcs[|arcs| - 1];
      GraphOfCounts(n, front, u, v);
      assert arcs == front + [last];
      CountAppend(GraphOf(n, front)[u], [last.dst], v);
    }
  }

  lemma GraphOfArcs(n: nat, arcs: seq<Arc>, u: nat, v: nat)
    requires forall a <- arcs :: a.src < n && a.dst < n
    requires u < n
    ensures v in GraphOf(n, arcs)[u] <==> Arc(u, v) in arcs
  {
    GraphOfCounts(n, arcs, u, v);
    CountPositive(GraphOf(n, arcs)[u], v);
    assert Arc(u, v) in arcs <==> Arc(u, v) in multiset(arcs);
  }

  // ---------- pigeonhole ----------

  function Below(n: nat): (s: set<nat>)
    ensures |s| == n && forall v :: v in s <==> 0 <= v < n
  {
    if n == 0 then {} else Below(n - 1) + {n - 1}
  }

  ghost function Elements(s: seq<nat>): set<nat> {
    set v | v in s
  }

  lemma {:induction false} DistinctSize(s: seq<nat>)
    requires Distinct(s)
    ensures |Elements(s)| == |s|
  {
    if s != [] {
      var front := s[..|s| - 1];
      DistinctSize(front);
      assert Elements(s) == Elements(front) + {s[|s| - 1]};
    }
  }

  lemma SubsetSize(a: set<nat>, b: set<nat>)
    requires a <= b
    ensures |a| <= |b| && (|a| == |b| ==> a == b)
  {
    assert b == a + (b - a);
  }

  /** A repetition-free list of vertices is no longer than the vertex count, and equal in length only if it is full. */
  lemma DistinctBounded(s: seq<nat>, n: nat)
    requires Distinct(s) && forall i :: 0 <= i < |s| ==> s[i] < n
    ensures |s| <= n && (|s| == n ==> IsPermutation(s, n))
  {
    DistinctSize(s);
    SubsetSize(Elements(s), Below(n));
    forall v | 0 <= v < n && |s| == n ensures v in s {
      assert v in Elements(s);
    }
  }

  // ---------- orders and cycles ----------

  lemma {:induction false} PathGoesForward(g: Graph, order: seq<nat>, p: seq<nat>, i: nat, j: nat)
    requires IsTopological(g, order) && IsPath(g, p)
    requires i < |order| && j < |order| && order[i] == p[0] && order[j] == p[|p| - 1]
    ensures |p| == 1 || i < j
    decreases |p|
  {
    if |p| > 1 {
      var front, prev := p[..|p| - 1], p[|p| - 2];
      assert HasArc(g, prev, p[|p| - 2 + 1]);
      assert prev in order;
      var m :| 0 <= m < |order| && order[m] == prev;
      PathGoesForward(g, order, front, i, m);
    }
  }

  lemma OrderExcludesCycles(g: Graph, order: seq<nat>)
    requires IsTopological(g, order)
    ensures Acyclic(g)
  {
    forall p | IsCycle(g, p) ensures false {
      assert p[0] in order;
      var i :| 0 <= i < |order| && order[i] == p[0];
      PathGoesForward(g, order, p, i, i);
    }
  }

  /** Every member of `u` has a predecessor in `u`. */
  ghost predicate BackwardClosed(g: Graph, u: set<nat>) {
    forall v {:trigger HasPredecessorIn(g, u, v)} :: v in u ==> HasPredecessorIn(g, u, v)
  }

  ghost predicate HasPredecessorIn(g: Graph, u: set<nat>, v: nat) {
    v < |g| && exists w :: w in u && HasArc(g, w, v)
  }

  lemma PathPrepend(g: Graph, w: nat, p: seq<nat>)
    requires IsPath(g, p) && HasArc(g, w, p[0])
    ensures IsPath(g, [w] + p)
  {
    var q := [w] + p;
    forall i {:trigger q[i]} | 0 <= i < |q| - 1 ensures HasArc(g, q[i], q[i + 1]) {
      if i > 0 {
        assert HasArc(g, p[i - 1], p[i - 1 + 1]);
      }
    }
  }

  lemma {:induction false} BackwardWalk(g: Graph, u: set<nat>, k: nat) returns (p: seq<nat>)
    requires u != {} && BackwardClosed(g, u)
    ensures |p| == k + 1 && IsPath(g, p) && Elements(p) <= u
  {
    if k == 0 {
      var v :| v in u;
      assert HasPredecessorIn(g, u, v);
      p := [v];
    } else {
      var q := BackwardWalk(g, u, k - 1);
      assert q[0] in Elements(q);
      assert HasPredecessorIn(g, u, q[0]);
      var w :| w in u && HasArc(g, w, q[0]);
      PathPrepend(g, w, q);
      p := [w] + q;
      assert Elements(p) == Elements(q) + {w};
    }
  }

  lemma Subpath(g: Graph, p: seq<nat>, i: nat, j: nat)
    requires IsPath(g, p) && i <= j < |p|
    ensures IsPath(g, p[i..j + 1])
  {
    var c := p[i..j + 1];
    assert p[j] < |g| by {
      if j < |p| - 1 {
        assert HasArc(g, p[j], p[j + 1]);
      }
    }
    forall k {:trigger c[k]} | 0 <= k < |c| - 1 ensures HasArc(g, c[k], c[k + 1]) {
      assert HasArc(g, p[i + k], p[i + k + 1]);
    }
  }

  lemma LongerRepeats(p: seq<nat>, u: set<nat>)
    requires Elements(p) <= u && |p| > |u|
    ensures !Distinct(p)
  {
    if Distinct(p) {
      DistinctSize(p);
      SubsetSize(Elements(p), u);
    }
  }

  lemma RepeatIsCycle(g: Graph, p: seq<nat>, i: nat, j: nat)
    requires IsPath(g, p) && i < j < |p| && p[i] == p[j]
    ensures !Acyclic(g)
  {
    var c := p[i..j + 1];
    Subpath(g, p, i, j);
    assert c[0] == p[i] && c[|c| - 1] == p[j];
    assert IsCycle(g, c);
  }

  /** A non-empty set in which everybody has a predecessor contains a cycle. */
  lemma ClosedSetHasCycle(g: Graph, u: set<nat>)
    requires u != {} && BackwardClosed(g, u)
    ensures !Acyclic(g)
  {
    var p := BackwardWalk(g, u, |u|);
    LongerRepeats(p, u);
    var i, j :| 0 <= i < j < |p| && p[i] == p[j];
    RepeatIsCycle(g, p, i, j);
  }
}
