/**
 Compilation of stage definitions and port wires into a stream plan: port
 collection, wire resolution, degree checks and Kahn's sort with a last-in
 first-out ready stack.
 */
module StreamPlan {
  import opened Options
  import opened Lists
  import opened StageGraph

  type PortId = nat

  datatype MatCombine = KeepLeft | KeepRight | KeepBoth | KeepNone

  datatype Stage =
    | Source(outlet: PortId)
    | Flow(inlet: PortId, outlet: PortId, expectedFanIn: Option<nat>, expectedFanOut: Option<nat>)
    | Sink(inlet: PortId)
  {
    function InletPort(): Option<PortId> {
      if Source? then None else Some(inlet)
    }

    function OutletPort(): Option<PortId> {
      if Sink? then None else Some(outlet)
    }
  }

  datatype Wire = Wire(from: PortId, to: PortId, mat: MatCombine)

  datatype Plan = Plan(
    stages: seq<Stage>,
    edges: seq<Wire>,
    sourceIndices: seq<nat>,
    sinkIndices: seq<nat>,
    flowOrder: seq<nat>)

  type PortTable = seq<(PortId, nat)>

  datatype StagePorts = StagePorts(sources: seq<nat>, sinks: seq<nat>, inputs: PortTable, outputs: PortTable)

  datatype Topology = Topology(edges: seq<Wire>, incoming: seq<nat>, outgoing: seq<nat>, adjacency: Graph)

  // ---------- what a valid set of parts is ----------

  ghost predicate PortsDistinct(stages: seq<Stage>) {
    forall i, j :: 0 <= i < j < |stages| ==>
      && (stages[i].InletPort().Some? ==> stages[i].InletPort() != stages[j].InletPort())
      && (stages[i].OutletPort().Some? ==> stages[i].OutletPort() != stages[j].OutletPort())
  }

  ghost predicate Resolves(stages: seq<Stage>, w: Wire, a: Arc) {
    && a.src < |stages| && stages[a.src].OutletPort() == Some(w.from)
    && a.dst < |stages| && stages[a.dst].InletPort() == Some(w.to)
  }

  ghost predicate ResolvesAll(stages: seq<Stage>, wires: seq<Wire>, arcs: seq<Arc>) {
    && |arcs| == |wires|
    && (forall k :: 0 <= k < |arcs| ==> Resolves(stages, wires[k], arcs[k]))
  }

  ghost predicate DegreeOk(stage: Stage, incoming: nat, outgoing: nat) {
    match stage
    case Source(_) => outgoing > 0
    case Sink(_) => incoming > 0
    case Flow(_, _, fanIn, fanOut) =>
      && incoming > 0 && outgoing > 0
      && (fanIn.Some? ==> incoming == fanIn.value)
      && (fanOut.Some? ==> outgoing == fanOut.value)
  }

  ghost predicate DegreesOk(stages: seq<Stage>, g: Graph) {
    |g| == |stages| && forall i :: 0 <= i < |stages| ==> DegreeOk(stages[i], InDegree(g, i), |g[i]|)
  }

  /** `arcs` resolves the wires to a graph with the required degrees and no cycle. */
  ghost predicate WiredSoundly(stages: seq<Stage>, wires: seq<Wire>, arcs: seq<Arc>) {
    && ResolvesAll(stages, wires, arcs)
    && DegreesOk(stages, GraphOf(|stages|, arcs))
    && Acyclic(GraphOf(|stages|, arcs))
  }

  ghost predicate ValidParts(stages: seq<Stage>, wires: seq<Wire>) {
    && stages != [] && wires != []
    && PortsDistinct(stages)
    && (exists i :: 0 <= i < |stages| && stages[i].Source?)
    && (exists i :: 0 <= i < |stages| && stages[i].Sink?)
    && (exists arcs :: WiredSoundly(stages, wires, arcs))
  }

  ghost predicate Ascending(s: seq<nat>) {
    forall i, j :: 0 <= i < j < |s| ==> s[i] < s[j]
  }

  /** Each flow occurs once, and a flow that reaches another comes before it. */
  ghost predicate OrdersFlows(stages: seq<Stage>, g: Graph, flowOrder: seq<nat>) {
    && Distinct(flowOrder)
    && (forall i :: i in flowOrder <==> 0 <= i < |stages| && stages[i].Flow?)
    && (forall p, i, j :: IsPath(g, p) && 0 <= i < |flowOrder| && 0 <= j < |flowOrder| ==>
          |p| >= 2 && p[0] == flowOrder[i] && p[|p| - 1] == flowOrder[j] ==> i < j)
  }

  ghost predicate PlanFor(stages: seq<Stage>, wires: seq<Wire>, arcs: seq<Arc>, plan: Plan) {
    && WiredSoundly(stages, wires, arcs)
    && plan.stages == stages && plan.edges == wires
    && Ascending(plan.sourceIndices)
    && (forall i :: i in plan.sourceIndices <==> 0 <= i < |stages| && stages[i].Source?)
    && Ascending(plan.sinkIndices)
    && (forall i :: i in plan.sinkIndices <==> 0 <= i < |stages| && stages[i].Sink?)
    && OrdersFlows(stages, GraphOf(|stages|, arcs), plan.flowOrder)
    && (exists order :: IsTopological(GraphOf(|stages|, arcs), order))
  }

  // ---------- ports ----------

  ghost predicate ListsInlets(stages: seq<Stage>, table: PortTable) {
    forall e :: e in table <==> 0 <= e.1 < |stages| && stages[e.1].InletPort() == Some(e.0)
  }

  ghost predicate ListsOutlets(stages: seq<Stage>, table: PortTable) {
    forall e :: e in table <==> 0 <= e.1 < |stages| && stages[e.1].OutletPort() == Some(e.0)
  }

  predicate HasPort(table: PortTable, port: PortId) {
    exists i :: 0 <= i < |table| && table[i].0 == port
  }

  function CollectUniquePort(table: PortTable, port: Option<PortId>, index: nat): (r: Option<PortTable>)
    ensures r.None? <==> port.Some? && exists e :: e in table && e.0 == port.value
    ensures r.Some? ==> forall e :: e in r.value <==> e in table || (port == Some(e.0) && e.1 == index)
  {
    match port
    case None => Some(table)
    case Some(p) =>
      if HasPort(table, p) then
        var i :| 0 <= i < |table| && table[i].0 == p;
        assert table[i] in table;
        None
      else Some(table + [(p, index)])
  }

  method CollectStagePorts(stages: seq<Stage>) returns (r: Option<StagePorts>)
    ensures r.Some? <==> PortsDistinct(stages)
    ensures r.Some? ==> ListsInlets(stages, r.value.inputs) && ListsOutlets(stages, r.value.outputs)
    ensures r.Some? ==> Ascending(r.value.sources) && Ascending(r.value.sinks)
    ensures r.Some? ==> forall i :: i in r.value.sources <==> 0 <= i < |stages| && stages[i].Source?
    ensures r.Some? ==> forall i :: i in r.value.sinks <==> 0 <= i < |stages| && stages[i].Sink?
  {
    var sources: seq<nat>, sinks: seq<nat> := [], [];
    var inputs: PortTable, outputs: PortTable := [], [];
    for k := 0 to |stages|
      invariant PortsDistinct(stages[..k])
      invariant ListsInlets(stages[..k], inputs) && ListsOutlets(stages[..k], outputs)
      invariant Ascending(sources) && Ascending(sinks)
      invariant forall i :: 0 <= i < |sources| ==> sources[i] < k
      invariant forall i :: 0 <= i < |sinks| ==> sinks[i] < k
      invariant forall i :: i in sources <==> 0 <= i < k && stages[i].Source?
      invariant forall i :: i in sinks <==> 0 <= i < k && stages[i].Sink?
    {
      var stage := stages[k];
      match stage {
        case Source(_) => sources := sources + [k];
        case Flow(_, _, _, _) =>
        case Sink(_) => sinks := sinks + [k];
      }
      var ins := CollectUniquePort(inputs, stage.InletPort(), k);
      if ins.None? {
        ghost var e :| e in inputs && e.0 == stage.inlet;
        assert stages[..k][e.1].InletPort() == Some(e.0);
        return None;
      }
      var outs := CollectUniquePort(outputs, stage.OutletPort(), k);
      if outs.None? {
        ghost var e :| e in outputs && e.0 == stage.outlet;
        assert stages[..k][e.1].OutletPort() == Some(e.0);
        return None;
      }
      DistinctExtends(stages, k, inputs, outputs);
      inputs, outputs := ins.value, outs.value;
    }
    assert stages[..|stages|] == stages;
    return Some(StagePorts(sources, sinks, inputs, outputs));
  }

  lemma DistinctExtends(stages: seq<Stage>, k: nat, inputs: PortTable, outputs: PortTable)
    requires k < |stages| && PortsDistinct(stages[..k])
    requires ListsInlets(stages[..k], inputs) && ListsOutlets(stages[..k], outputs)
    requires CollectUniquePort(inputs, stages[k].InletPort(), k).Some?
    requires CollectUniquePort(outputs, stages[k].OutletPort(), k).Some?
    ensures PortsDistinct(stages[..k + 1])
  {
    var s := stages[..k + 1];
    forall i, j | 0 <= i < j < |s|
      ensures s[i].InletPort().Some? ==> s[i].InletPort() != s[j].InletPort()
      ensures s[i].OutletPort().Some? ==> s[i].OutletPort() != s[j].OutletPort()
    {
      if j < k {
        assert s[i] == stages[..k][i] && s[j] == stages[..k][j];
      } else {
        if s[i].InletPort().Some? {
          assert (s[i].inlet, i) in inputs;
        }
        if s[i].OutletPort().Some? {
          assert (s[i].outlet, i) in outputs;
        }
      }
    }
  }

  method StageIndexForPort(table: PortTable, port: PortId) returns (r: Option<nat>)
    ensures r.Some? ==> (port, r.value) in table
    ensures r.None? ==> forall e :: e in table ==> e.0 != port
  {
    for i := 0 to |table|
      invariant forall j :: 0 <= j < i ==> table[j].0 != port
    {
      if table[i].0 == port {
        return Some(table[i].1);
      }
    }
    return None;
  }

  // ---------- wires ----------

  ghost predicate ArcsWithin(arcs: seq<Arc>, n: nat) {
    forall a <- arcs :: a.src < n && a.dst < n
  }

  ghost predicate TopologyOf(n: nat, wires: seq<Wire>, arcs: seq<Arc>, t: Topology) {
    && ArcsWithin(arcs, n)
    && t.edges == wires
    && t.adjacency == GraphOf(n, arcs)
    && |t.incoming| == n && (forall v :: 0 <= v < n ==> t.incoming[v] == InDegree(t.adjacency, v))
    && |t.outgoing| == n && (forall v :: 0 <= v < n ==> t.outgoing[v] == |t.adjacency[v]|)
  }

  lemma {:induction false} NoArcsNoDegrees(n: nat, v: nat, m: nat)
    requires m <= n
    ensures Remaining(GraphOf(n, []), {}, v, m) == 0
  {
    if m > 0 {
      NoArcsNoDegrees(n, v, m - 1);
    }
  }

  lemma TopologyGrows(n: nat, wires: seq<Wire>, arcs: seq<Arc>, t: Topology, w: Wire, a: Arc)
    requires TopologyOf(n, wires, arcs, t) && a.src < n && a.dst < n
    ensures TopologyOf(n, wires + [w], arcs + [a], Topology(
                         t.edges + [w],
                         t.incoming[a.dst := t.incoming[a.dst] + 1],
                         t.outgoing[a.src := t.outgoing[a.src] + 1],
                         t.adjacency[a.src := t.adjacency[a.src] + [a.dst]]))
  {
    assert (arcs + [a])[..|arcs + [a]| - 1] == arcs;
    forall v | 0 <= v < n {
      RemainingAppendArc(t.adjacency, a.src, a.dst, v, n);
    }
  }

  lemma ResolvableWire(stages: seq<Stage>, wires: seq<Wire>, arcs: seq<Arc>, ports: StagePorts, k: nat)
    requires ListsInlets(stages, ports.inputs) && ListsOutlets(stages, ports.outputs)
    requires ResolvesAll(stages, wires, arcs) && k < |wires|
    ensures exists e :: e in ports.outputs && e.0 == wires[k].from
    ensures exists e :: e in ports.inputs && e.0 == wires[k].to
  {
    assert Resolves(stages, wires[k], arcs[k]);
    assert (wires[k].from, arcs[k].src) in ports.outputs;
    assert (wires[k].to, arcs[k].dst) in ports.inputs;
  }

  method BuildTopology(stages: seq<Stage>, wires: seq<Wire>, ports: StagePorts)
    returns (r: Option<Topology>, ghost arcs: seq<Arc>)
    requires ListsInlets(stages, ports.inputs) && ListsOutlets(stages, ports.outputs)
    ensures r.Some? ==> ResolvesAll(stages, wires, arcs) && TopologyOf(|stages|, wires, arcs, r.value)
    ensures r.Some? <==> exists other :: ResolvesAll(stages, wires, other)
  {
    var n := |stages|;
    var t := Topology([], seq(n, _ => 0), seq(n, _ => 0), seq(n, _ => []));
    arcs := [];
    forall v | 0 <= v < n {
      NoArcsNoDegrees(n, v, n);
    }
    assert t.adjacency == GraphOf(n, []);
    for k := 0 to |wires|
      invariant ResolvesAll(stages, wires[..k], arcs)
      invariant TopologyOf(n, wires[..k], arcs, t)
    {
      var w := wires[k];
      var src := StageIndexForPort(ports.outputs, w.from);
      var dst := StageIndexForPort(ports.inputs, w.to);
      if src.None? || dst.None? {
        forall other: seq<Arc> | ResolvesAll(stages, wires, other) ensures false {
          ResolvableWire(stages, wires, other, ports, k);
        }
        return None, arcs;
      }
      TopologyGrows(n, wires[..k], arcs, t, w, Arc(src.value, dst.value));
      assert wires[..k + 1] == wires[..k] + [w];
      t := Topology(
        t.edges + [w],
        t.incoming[dst.value := t.incoming[dst.value] + 1],
        t.outgoing[src.value := t.outgoing[src.value] + 1],
        t.adjacency[src.value := t.adjacency[src.value] + [dst.value]]);
      arcs := arcs + [Arc(src.value, dst.value)];
    }
    assert wires[..|wires|] == wires;
    return Some(t), arcs;
  }

  lemma ResolutionUnique(stages: seq<Stage>, wires: seq<Wire>, a: seq<Arc>, b: seq<Arc>)
    requires PortsDistinct(stages) && ResolvesAll(stages, wires, a) && ResolvesAll(stages, wires, b)
    ensures a == b
  {
    forall k | 0 <= k < |wires| ensures a[k] == b[k] {
      assert Resolves(stages, wires[k], a[k]) && Resolves(stages, wires[k], b[k]);
    }
  }

  // ---------- degrees ----------

  method ValidateDegrees(stages: seq<Stage>, t: Topology) returns (ok: bool)
    requires |t.adjacency| == |t.incoming| == |t.outgoing| == |stages|
    requires forall v :: 0 <= v < |stages| ==> t.incoming[v] == InDegree(t.adjacency, v)
    requires forall v :: 0 <= v < |stages| ==> t.outgoing[v] == |t.adjacency[v]|
    ensures ok <==> DegreesOk(stages, t.adjacency)
  {
    for i := 0 to |stages|
      invariant forall j :: 0 <= j < i ==> DegreeOk(stages[j], InDegree(t.adjacency, j), |t.adjacency[j]|)
    {
      var incoming, outgoing := t.incoming[i], t.outgoing[i];
      match stages[i] {
        case Source(_) =>
          if outgoing == 0 { return false; }
        case Sink(_) =>
          if incoming == 0 { return false; }
        case Flow(_, _, fanIn, fanOut) =>
          if incoming == 0 || outgoing == 0 { return false; }
          if fanIn.Some? && incoming != fanIn.value { return false; }
          if fanOut.Some? && outgoing != fanOut.value { return false; }
      }
    }
    return true;
  }

  // ---------- Kahn's sort ----------

  /**
   The sort's loop state: `ordered` is done, `ready` waits, `pending` are the arcs of
   the last ordered stage still to be released, and each count is the number of arcs
   from stages not done plus the pending ones.
   */
  ghost predicate Sorting(g: Graph, ordered: seq<nat>, ready: seq<nat>, incoming: seq<nat>, pending: seq<nat>) {
    && |incoming| == |g|
    && Placed(g, ordered, ready)
    && (forall v :: 0 <= v < |g| ==> (incoming[v] == 0 <==> v in ordered || v in ready))
    && (forall v :: 0 <= v < |g| ==>
          incoming[v] == Remaining(g, Elements(ordered), v, |g|) + Count(pending, v))
    && Forward(g, ordered)
  }

  ghost predicate Placed(g: Graph, ordered: seq<nat>, ready: seq<nat>) {
    && Distinct(ordered) && Distinct(ready)
    && (forall i :: 0 <= i < |ordered| ==> ordered[i] < |g| && ordered[i] !in ready)
    && (forall i :: 0 <= i < |ready| ==> ready[i] < |g|)
  }

  /** Every predecessor of an ordered stage stands before it. */
  ghost predicate Forward(g: Graph, ordered: seq<nat>) {
    forall i, u :: 0 <= i < |ordered| && HasArc(g, u, ordered[i]) ==> u in ordered[..i]
  }

  lemma PopReady(g: Graph, ordered: seq<nat>, ready: seq<nat>, incoming: seq<nat>)
    requires Sorting(g, ordered, ready, incoming, []) && ready != []
    ensures var u := ready[|ready| - 1];
            Sorting(g, ordered + [u], ready[..|ready| - 1], incoming, g[u])
  {
    var u, front := ready[|ready| - 1], ready[..|ready| - 1];
    var done := Elements(ordered);
    assert u in ready && u !in ordered;
    assert Elements(ordered + [u]) == done + {u};
    assert ready == front + [u];
    forall v | 0 <= v < |g| {
      RemainingAfter(g, done, u, v, |g|);
    }
    RemainingZero(g, done, u, |g|);
    var next := ordered + [u];
    forall i, w | 0 <= i < |next| && HasArc(g, w, next[i]) ensures w in next[..i] {
      assert next[..i] == ordered[..i];
      if i == |ordered| {
        assert w in done;
      }
    }
  }

  lemma ReleaseArc(g: Graph, ordered: seq<nat>, ready: seq<nat>, incoming: seq<nat>, pending: seq<nat>)
    requires Sorting(g, ordered, ready, incoming, pending) && pending != [] && pending[0] < |g|
    ensures incoming[pending[0]] > 0
    ensures var v := pending[0];
            var left := incoming[v] - 1;
            Sorting(g, ordered, if left == 0 then ready + [v] else ready, incoming[v := left], pending[1..])
  {
    assert Count(pending, pending[0]) > 0;
  }

  method CollectReadyDownstream(u: nat, g: Graph, incoming: array<nat>, ready0: seq<nat>, ghost ordered: seq<nat>)
    returns (ready: seq<nat>)
    requires u < |g| && WellFormed(g)
    requires Sorting(g, ordered, ready0, incoming[..], g[u])
    modifies incoming
    ensures Sorting(g, ordered, ready, incoming[..], [])
  {
    ready := ready0;
    for k := 0 to |g[u]|
      invariant Sorting(g, ordered, ready, incoming[..], g[u][k..])
    {
      var v := g[u][k];
      ghost var before := incoming[..];
      ReleaseArc(g, ordered, ready, before, g[u][k..]);
      assert g[u][k..][1..] == g[u][k + 1..];
      incoming[v] := incoming[v] - 1;
      assert incoming[..] == before[v := before[v] - 1];
      if incoming[v] == 0 {
        ready := ready + [v];
      }
    }
  }

  lemma SortedIsTopological(g: Graph, ordered: seq<nat>, incoming: seq<nat>)
    requires Sorting(g, ordered, [], incoming, []) && |ordered| == |g|
    ensures IsTopological(g, ordered)
  {
    DistinctBounded(ordered, |g|);
    forall i, j | 0 <= i < |ordered| && 0 <= j < |ordered| && HasArc(g, ordered[i], ordered[j]) ensures i < j {
      assert ordered[i] in ordered[..j];
    }
  }

  lemma StuckHasCycle(g: Graph, ordered: seq<nat>, incoming: seq<nat>)
    requires Sorting(g, ordered, [], incoming, []) && |ordered| != |g|
    ensures !Acyclic(g)
  {
    var done := Elements(ordered);
    var rest := Below(|g|) - done;
    DistinctSize(ordered);
    SubsetSize(done, Below(|g|));
    assert done != Below(|g|);
    forall v | v in rest ensures HasPredecessorIn(g, rest, v) {
      assert incoming[v] > 0;
      RemainingZero(g, done, v, |g|);
      var u :| 0 <= u < |g| && u !in done && v in g[u];
      assert HasArc(g, u, v);
    }
    ClosedSetHasCycle(g, rest);
  }

  method TopologicalOrder(g: Graph, incoming: array<nat>) returns (r: Option<seq<nat>>)
    requires WellFormed(g) && incoming.Length == |g|
    requires forall v :: 0 <= v < |g| ==> incoming[v] == InDegree(g, v)
    modifies incoming
    ensures r.Some? ==> IsTopological(g, r.value)
    ensures r.Some? <==> Acyclic(g)
  {
    var ready := ReadyStages(incoming);
    var ordered: seq<nat> := [];
    assert Elements(ordered) == {};
    assert forall i :: 0 <= i < |ready| ==> ready[i] in ready;
    while ready != []
      invariant Sorting(g, ordered, ready, incoming[..], [])
      decreases |g| - |ordered|
    {
      DistinctBounded(ordered, |g|);
      PopReady(g, ordered, ready, incoming[..]);
      var u := ready[|ready| - 1];
      ready := ready[..|ready| - 1];
      ordered := ordered + [u];
      DistinctBounded(ordered, |g|);
      ready := CollectReadyDownstream(u, g, incoming, ready, ordered);
    }
    if |ordered| != |g| {
      StuckHasCycle(g, ordered, incoming[..]);
      return None;
    }
    SortedIsTopological(g, ordered, incoming[..]);
    OrderExcludesCycles(g, ordered);
    return Some(ordered);
  }

  method ReadyStages(incoming: array<nat>) returns (ready: seq<nat>)
    ensures Ascending(ready)
    ensures forall v :: v in ready <==> 0 <= v < incoming.Length && incoming[v] == 0
  {
    ready := [];
    for i := 0 to incoming.Length
      invariant Ascending(ready)
      invariant forall k :: 0 <= k < |ready| ==> ready[k] < i
      invariant forall v :: v in ready <==> 0 <= v < i && incoming[v] == 0
    {
      if incoming[i] == 0 {
        ready := ready + [i];
      }
    }
  }

  // ---------- flow order ----------

  ghost function FlowsOf(stages: seq<Stage>, order: seq<nat>): seq<nat>
    requires forall i :: 0 <= i < |order| ==> order[i] < |stages|
  {
    if order == [] then []
    else
      var last := order[|order| - 1];
      FlowsOf(stages, order[..|order| - 1]) + (if stages[last].Flow? then [last] else [])
  }

  method FlowOrder(stages: seq<Stage>, order: seq<nat>) returns (flowOrder: seq<nat>)
    requires forall i :: 0 <= i < |order| ==> order[i] < |stages|
    ensures flowOrder == FlowsOf(stages, order)
  {
    flowOrder := [];
    for k := 0 to |order|
      invariant flowOrder == FlowsOf(stages, order[..k])
    {
      assert order[..k + 1][..k] == order[..k];
      if stages[order[k]].Flow? {
        flowOrder := flowOrder + [order[k]];
      }
    }
    assert order[..|order|] == order;
  }

  /** The flows of a repetition-free list: each once, in the list's order. */
  lemma {:induction false} FlowsKeepOrder(stages: seq<Stage>, order: seq<nat>)
    requires forall i :: 0 <= i < |order| ==> order[i] < |stages|
    requires Distinct(order)
    ensures forall v :: v in FlowsOf(stages, order) <==> v in order && stages[v].Flow?
    ensures Distinct(FlowsOf(stages, order))
  {
    if order != [] {
      var front := order[..|order| - 1];
      FlowsKeepOrder(stages, front);
      assert order == front + [order[|order| - 1]];
    }
  }

  lemma {:induction false} FlowsInOrder(stages: seq<Stage>, order: seq<nat>, i: nat, j: nat, a: nat, b: nat)
    requires forall i :: 0 <= i < |order| ==> order[i] < |stages|
    requires Distinct(order) && a < b < |order|
    requires i < |FlowsOf(stages, order)| && j < |FlowsOf(stages, order)|
    requires FlowsOf(stages, order)[i] == order[a] && FlowsOf(stages, order)[j] == order[b]
    ensures i < j
  {
    var front := order[..|order| - 1];
    var f := FlowsOf(stages, front);
    FlowsKeepOrder(stages, order);
    FlowsKeepOrder(stages, front);
    if b < |front| {
      assert order[a] == front[a] && order[b] == front[b];
      assert order[|front|] !in front;
      FlowsInOrder(stages, front, i, j, a, b);
    } else {
      assert order[b] !in front;
      assert j == |f|;
    }
  }

  lemma FlowsOrdered(stages: seq<Stage>, g: Graph, order: seq<nat>)
    requires |g| == |stages| && IsTopological(g, order)
    ensures OrdersFlows(stages, g, FlowsOf(stages, order))
  {
    FlowsKeepOrder(stages, order);
    var f := FlowsOf(stages, order);
    forall p, i, j | IsPath(g, p) && 0 <= i < |f| && 0 <= j < |f| && |p| >= 2 && p[0] == f[i] && p[|p| - 1] == f[j]
      ensures i < j
    {
      assert f[i] in order && f[j] in order;
      var a :| 0 <= a < |order| && order[a] == f[i];
      var b :| 0 <= b < |order| && order[b] == f[j];
      PathGoesForward(g, order, p, a, b);
      FlowsInOrder(stages, order, i, j, a, b);
    }
  }

  // ---------- the compiler ----------

  /** Succeeds on exactly the valid parts, and then returns their plan. */
  method FromParts(stages: seq<Stage>, wires: seq<Wire>) returns (r: Option<Plan>)
    ensures r.Some? <==> ValidParts(stages, wires)
    ensures r.Some? ==> exists arcs :: PlanFor(stages, wires, arcs, r.value)
  {
    if stages == [] || wires == [] {
      return None;
    }
    var ports := CollectStagePorts(stages);
    if ports.None? {
      return None;
    }
    if ports.value.sources == [] || ports.value.sinks == [] {
      return None;
    }
    assert ports.value.sources[0] in ports.value.sources && ports.value.sinks[0] in ports.value.sinks;
    var topology, arcs := BuildTopology(stages, wires, ports.value);
    if topology.None? {
      return None;
    }
    var t := topology.value;
    forall other: seq<Arc> | WiredSoundly(stages, wires, other) ensures other == arcs {
      ResolutionUnique(stages, wires, other, arcs);
    }
    var ok := ValidateDegrees(stages, t);
    if !ok {
      return None;
    }
    var incoming := new nat[|stages|](i requires 0 <= i < |stages| => t.incoming[i]);
    var order := TopologicalOrder(t.adjacency, incoming);
    if order.None? {
      return None;
    }
    var flowOrder := FlowOrder(stages, order.value);
    FlowsOrdered(stages, t.adjacency, order.value);
    var plan := Plan(stages, t.edges, ports.value.sources, ports.value.sinks, flowOrder);
    assert PlanFor(stages, wires, arcs, plan);
    return Some(plan);
  }

  // ---------- what holds of every accepted plan ----------

  lemma ArcEnds(stages: seq<Stage>, wires: seq<Wire>, arcs: seq<Arc>, u: nat, v: nat)
    requires ResolvesAll(stages, wires, arcs) && u < |stages|
    requires v in GraphOf(|stages|, arcs)[u]
    ensures v < |stages| && !stages[u].Sink? && !stages[v].Source?
  {
    GraphOfArcs(|stages|, arcs, u, v);
    var k :| 0 <= k < |arcs| && arcs[k] == Arc(u, v);
    assert Resolves(stages, wires[k], arcs[k]);
  }

  /** The sort starts from exactly the sources. */
  lemma ReadyAreSources(stages: seq<Stage>, wires: seq<Wire>, arcs: seq<Arc>, i: nat)
    requires WiredSoundly(stages, wires, arcs) && i < |stages|
    ensures InDegree(GraphOf(|stages|, arcs), i) == 0 <==> stages[i].Source?
  {
    var g := GraphOf(|stages|, arcs);
    InDegreePositive(g, i);
    forall u | 0 <= u < |g| && i in g[u] ensures !stages[i].Source? {
      ArcEnds(stages, wires, arcs, u, i);
    }
  }

  /** Sinks are exactly the stages without outgoing arcs. */
  lemma SinksAreLast(stages: seq<Stage>, wires: seq<Wire>, arcs: seq<Arc>, i: nat)
    requires WiredSoundly(stages, wires, arcs) && i < |stages|
    ensures GraphOf(|stages|, arcs)[i] == [] <==> stages[i].Sink?
  {
    var g := GraphOf(|stages|, arcs);
    if g[i] != [] {
      ArcEnds(stages, wires, arcs, i, g[i][0]);
    }
  }

  lemma {:induction false} PathFromSource(stages: seq<Stage>, wires: seq<Wire>, arcs: seq<Arc>, order: seq<nat>, m: nat)
    returns (p: seq<nat>)
    requires WiredSoundly(stages, wires, arcs)
    requires IsTopological(GraphOf(|stages|, arcs), order) && m < |order|
    ensures IsPath(GraphOf(|stages|, arcs), p) && stages[p[0]].Source? && p[|p| - 1] == order[m]
    decreases m
  {
    var g, v := GraphOf(|stages|, arcs), order[m];
    ReadyAreSources(stages, wires, arcs, v);
    if stages[v].Source? {
      p := [v];
    } else {
      InDegreePositive(g, v);
      var u :| 0 <= u < |g| && v in g[u];
      assert HasArc(g, u, v) && u in order;
      var k :| 0 <= k < |order| && order[k] == u;
      var q := PathFromSource(stages, wires, arcs, order, k);
      p := PathAppend(g, q, v);
    }
  }

  lemma {:induction false} PathToSink(stages: seq<Stage>, wires: seq<Wire>, arcs: seq<Arc>, order: seq<nat>, m: nat)
    returns (p: seq<nat>)
    requires WiredSoundly(stages, wires, arcs)
    requires IsTopological(GraphOf(|stages|, arcs), order) && m < |order|
    ensures IsPath(GraphOf(|stages|, arcs), p) && p[0] == order[m] && stages[p[|p| - 1]].Sink?
    decreases |order| - m
  {
    var g, v := GraphOf(|stages|, arcs), order[m];
    SinksAreLast(stages, wires, arcs, v);
    if stages[v].Sink? {
      p := [v];
    } else {
      var w := g[v][0];
      assert HasArc(g, v, w) && w in order;
      var k :| 0 <= k < |order| && order[k] == w;
      var q := PathToSink(stages, wires, arcs, order, k);
      PathPrepend(g, v, q);
      p := [v] + q;
    }
  }

  lemma PathAppend(g: Graph, p: seq<nat>, v: nat) returns (q: seq<nat>)
    requires IsPath(g, p) && HasArc(g, p[|p| - 1], v)
    ensures q == p + [v] && IsPath(g, q)
  {
    q := p + [v];
    forall i {:trigger q[i]} | 0 <= i < |q| - 1 ensures HasArc(g, q[i], q[i + 1]) {
      if i < |p| - 1 {
        assert HasArc(g, p[i], p[i + 1]);
      }
    }
  }

  lemma JoinPaths(g: Graph, p: seq<nat>, q: seq<nat>)
    requires IsPath(g, p) && IsPath(g, q) && p[|p| - 1] == q[0]
    ensures IsPath(g, p + q[1..])
  {
    var r := p + q[1..];
    forall i {:trigger r[i]} | 0 <= i < |r| - 1 ensures HasArc(g, r[i], r[i + 1]) {
      if i < |p| - 1 {
        assert HasArc(g, p[i], p[i + 1]);
      } else {
        assert HasArc(g, q[i - |p| + 1], q[i - |p| + 1 + 1]);
      }
    }
  }

  /** Every stage of an accepted plan lies on a path from some source to some sink. */
  lemma StageBetweenSourceAndSink(stages: seq<Stage>, wires: seq<Wire>, arcs: seq<Arc>, plan: Plan, i: nat)
    returns (p: seq<nat>)
    requires PlanFor(stages, wires, arcs, plan) && i < |stages|
    ensures IsPath(GraphOf(|stages|, arcs), p) && i in p
    ensures stages[p[0]].Source? && stages[p[|p| - 1]].Sink?
  {
    var g := GraphOf(|stages|, arcs);
    var order :| IsTopological(g, order);
    assert i in order;
    var m :| 0 <= m < |order| && order[m] == i;
    var head := PathFromSource(stages, wires, arcs, order, m);
    var tail := PathToSink(stages, wires, arcs, order, m);
    JoinPaths(g, head, tail);
    p := head + tail[1..];
    assert p[|head| - 1] == i;
    assert |tail| > 1 ==> p[|p| - 1] == tail[|tail| - 1];
  }
}
