/**
 * `get_node_power_metrics` and `_enrich_node_metrics`: one record per node from the
 * platform series, then four component queries whose values are written into the
 * records through a name-to-node map.
 *
 * The Python code holds the records as objects that the list and `node_map` share, and
 * writes through the map.  Here the records are values in a sequence and `node_map`
 * maps a node name to a position in it: the dict comprehension keeps the last record of
 * each name, so a write reaches the last record with that name and no other.
 */
module NodeMetrics {
  import opened Wrappers
  import opened Prometheus
  import opened Queries

  /** The keys of `component_queries`, in their order; each names `{component}_power_joules`. */
  datatype NodeComponent = Cpu | Dram | Uncore | Pkg

  const ComponentOrder: seq<NodeComponent> := [Cpu, Dram, Uncore, Pkg]

  function ComponentQuery(c: NodeComponent): string {
    match c
    case Cpu => NodeCpuJoules
    case Dram => NodeDramJoules
    case Uncore => NodeUncoreJoules
    case Pkg => NodePackageJoules
  }

  /**
   * A node record.  `componentJoules` holds the `{component}_power_joules` attributes
   * setattr has assigned; a component absent from it keeps the record class's default.
   */
  datatype NodePowerData = NodePowerData(
    nodeName: string,
    platformPowerJoules: real,
    timestamp: real,
    labels: Labels,
    componentJoules: map<NodeComponent, real>)

  /** The node a series is about: its `instance` label, "unknown" when missing. */
  function NodeName(s: Series): string {
    LabelOr(s.metric, "instance")
  }

  /** The record built from one platform series. */
  function NodeOf(s: Series): NodePowerData
    requires HasSample(s)
  {
    NodePowerData(NodeName(s), s.value[1], s.value[0], s.metric, map[])
  }

  /** The records of the platform result: one per series with a sample, in series order. */
  function NodesOf(ss: seq<Series>): seq<NodePowerData> {
    if ss == [] then []
    else
      var s := ss[|ss| - 1];
      NodesOf(ss[..|ss| - 1]) + (if HasSample(s) then [NodeOf(s)] else [])
  }

  /** The series with a sample, in their order: the reference for NodesOf. */
  function Sampled(ss: seq<Series>): seq<Series> {
    Filter(HasSample, ss)
  }

  /** Record k is built from the k-th series with a sample. */
  lemma {:induction false} NodesOfMatchesSampled(ss: seq<Series>)
    ensures |NodesOf(ss)| == |Sampled(ss)|
    ensures forall k :: 0 <= k < |Sampled(ss)| ==>
      HasSample(Sampled(ss)[k]) && NodesOf(ss)[k] == NodeOf(Sampled(ss)[k])
    decreases |ss|
  {
    if ss != [] {
      var init, s := ss[..|ss| - 1], ss[|ss| - 1];
      assert ss == init + [s];
      NodesOfMatchesSampled(init);
      FilterSnoc(HasSample, init, s);
    }
  }

  // ---------------------------------------------------------------------------
  // _enrich_node_metrics
  // ---------------------------------------------------------------------------

  /** Every position the map holds is a position of a list of `count` records. */
  predicate IndexFits(index: map<string, nat>, count: nat) {
    forall n :: n in index ==> index[n] < count
  }

  /**
   * `node_map = {node.node_name: node for node in nodes}`: every name of the list maps
   * to the position of the last record carrying it.
   */
  function NodeIndex(nodes: seq<NodePowerData>): (m: map<string, nat>)
    ensures forall n :: n in m ==> m[n] < |nodes| && nodes[m[n]].nodeName == n
    ensures forall i :: 0 <= i < |nodes| ==> nodes[i].nodeName in m && i <= m[nodes[i].nodeName]
  {
    if nodes == [] then map[]
    else
      var init := nodes[..|nodes| - 1];
      var prev := NodeIndex(init);
      assert forall i :: 0 <= i < |init| ==> init[i] == nodes[i];
      prev[nodes[|nodes| - 1].nodeName := |nodes| - 1]
  }

  /** No later record has the same name: the one `node_map` keeps. */
  predicate IsLast(nodes: seq<NodePowerData>, i: nat)
    requires i < |nodes|
  {
    forall j :: i < j < |nodes| ==> nodes[j].nodeName != nodes[i].nodeName
  }

  lemma NodeIndexLast(nodes: seq<NodePowerData>, i: nat)
    requires i < |nodes|
    ensures NodeIndex(nodes)[nodes[i].nodeName] == i <==> IsLast(nodes, i)
  {
    var m := NodeIndex(nodes);
    var k := m[nodes[i].nodeName];
    if k == i {
      forall j | i < j < |nodes|
        ensures nodes[j].nodeName != nodes[i].nodeName
      {
        assert j <= m[nodes[j].nodeName];
      }
    } else {
      assert i < k && nodes[k].nodeName == nodes[i].nodeName;
    }
  }

  function SetComponent(n: NodePowerData, c: NodeComponent, v: real): NodePowerData {
    n.(componentJoules := n.componentJoules[c := v])
  }

  /** The inner loop body: a sampled series naming a known node sets that node's component. */
  function ApplySeries(nodes: seq<NodePowerData>, index: map<string, nat>, c: NodeComponent, s: Series)
    : (r: seq<NodePowerData>)
    requires IndexFits(index, |nodes|)
    ensures |r| == |nodes|
  {
    if HasSample(s) && NodeName(s) in index then
      var i := index[NodeName(s)];
      nodes[i := SetComponent(nodes[i], c, s.value[1])]
    else nodes
  }

  /** The inner loop over one component's result. */
  function ApplyResult(nodes: seq<NodePowerData>, index: map<string, nat>, c: NodeComponent, ss: seq<Series>)
    : (r: seq<NodePowerData>)
    requires IndexFits(index, |nodes|)
    ensures |r| == |nodes|
  {
    if ss == [] then nodes
    else ApplySeries(ApplyResult(nodes, index, c, ss[..|ss| - 1]), index, c, ss[|ss| - 1])
  }

  /** A failed component query is logged and skipped; the records stay as they were. */
  function ApplyResponse(nodes: seq<NodePowerData>, index: map<string, nat>, c: NodeComponent, resp: Response)
    : (r: seq<NodePowerData>)
    requires IndexFits(index, |nodes|)
    ensures |r| == |nodes|
  {
    match resp
    case Failure => nodes
    case Success(ss) => ApplyResult(nodes, index, c, ss)
  }

  /** The first k components of `component_queries` applied in order. */
  function Enrich(backend: Backend, nodes: seq<NodePowerData>, index: map<string, nat>, k: nat)
    : (r: seq<NodePowerData>)
    requires IndexFits(index, |nodes|) && k <= |ComponentOrder|
    ensures |r| == |nodes|
  {
    if k == 0 then nodes
    else
      var c := ComponentOrder[k - 1];
      ApplyResponse(Enrich(backend, nodes, index, k - 1), index, c, backend(Instant(ComponentQuery(c))))
  }

  /** The records after `_enrich_node_metrics(nodes)`. */
  function Enriched(backend: Backend, nodes: seq<NodePowerData>): seq<NodePowerData> {
    Enrich(backend, nodes, NodeIndex(nodes), |ComponentOrder|)
  }

  /** The value of the last sampled series about node `name`, if there is one. */
  function LastTargeting(ss: seq<Series>, name: string): Option<real> {
    if ss == [] then None
    else
      var s := ss[|ss| - 1];
      if HasSample(s) && NodeName(s) == name then Some(s.value[1])
      else LastTargeting(ss[..|ss| - 1], name)
  }

  /** LastTargeting finds a sampled series about the node, and none after it is about the node. */
  lemma {:induction false} LastTargetingSpec(ss: seq<Series>, name: string)
    ensures LastTargeting(ss, name).None? <==>
      forall j :: 0 <= j < |ss| ==> !(HasSample(ss[j]) && NodeName(ss[j]) == name)
    ensures LastTargeting(ss, name).Some? ==> exists j :: (0 <= j < |ss|
      && HasSample(ss[j]) && NodeName(ss[j]) == name && LastTargeting(ss, name).value == ss[j].value[1]
      && forall j' :: j < j' < |ss| ==> !(HasSample(ss[j']) && NodeName(ss[j']) == name))
    decreases |ss|
  {
    if ss != [] {
      var init, s := ss[..|ss| - 1], ss[|ss| - 1];
      LastTargetingSpec(init, name);
      assert forall j :: 0 <= j < |init| ==> init[j] == ss[j];
      if !(HasSample(s) && NodeName(s) == name) && LastTargeting(ss, name).Some? {
        var j :| 0 <= j < |init| && HasSample(init[j]) && NodeName(init[j]) == name
          && LastTargeting(init, name).value == init[j].value[1]
          && forall j' :: j < j' < |init| ==> !(HasSample(init[j']) && NodeName(init[j']) == name);
        assert forall j' :: j < j' < |ss| ==> !(HasSample(ss[j']) && NodeName(ss[j']) == name);
      }
    }
  }

  /**
   * After one component's result, record i is set to the last value about its name when
   * the map points that name at i, and is as it was otherwise.
   */
  lemma {:induction false} ApplyResultAt(
    nodes: seq<NodePowerData>, index: map<string, nat>, c: NodeComponent, ss: seq<Series>,
    i: nat, name: string)
    requires IndexFits(index, |nodes|) && i < |nodes|
    requires forall n :: n in index && index[n] == i ==> n == name
    ensures ApplyResult(nodes, index, c, ss)[i]
         == if name in index && index[name] == i && LastTargeting(ss, name).Some?
            then SetComponent(nodes[i], c, LastTargeting(ss, name).value)
            else nodes[i]
    decreases |ss|
  {
    if ss != [] {
      var init, s := ss[..|ss| - 1], ss[|ss| - 1];
      ApplyResultAt(nodes, index, c, init, i, name);
      var prev := ApplyResult(nodes, index, c, init);
      if HasSample(s) && NodeName(s) in index && index[NodeName(s)] == i {
        assert NodeName(s) == name;
        assert prev[i].componentJoules[c := s.value[1]] == nodes[i].componentJoules[c := s.value[1]];
      }
    }
  }

  /** A component map entry as an option: `getattr` if it was ever set. */
  function Lookup(m: map<NodeComponent, real>, c: NodeComponent): Option<real> {
    if c in m then Some(m[c]) else None
  }

  /** What the query of component c reports for node `name`: None when it fails or is silent. */
  function ComponentReading(backend: Backend, c: NodeComponent, name: string): Option<real> {
    match backend(Instant(ComponentQuery(c)))
    case Failure => None
    case Success(ss) => LastTargeting(ss, name)
  }

  /** The position of a component in `component_queries`. */
  function Rank(c: NodeComponent): (n: nat)
    ensures n < |ComponentOrder| && ComponentOrder[n] == c
  {
    match c
    case Cpu => 0
    case Dram => 1
    case Uncore => 2
    case Pkg => 3
  }

  /** Enrichment changes no field of a record but its components. */
  lemma {:induction false} EnrichKeepsFields(
    backend: Backend, nodes: seq<NodePowerData>, index: map<string, nat>, k: nat, i: nat)
    requires IndexFits(index, |nodes|) && k <= |ComponentOrder| && i < |nodes|
    requires forall n :: n in index && index[n] == i ==> n == nodes[i].nodeName
    ensures var r := Enrich(backend, nodes, index, k)[i];
      r == nodes[i].(componentJoules := r.componentJoules)
    decreases k
  {
    if k > 0 {
      EnrichKeepsFields(backend, nodes, index, k - 1, i);
      var ck := ComponentOrder[k - 1];
      var prev := Enrich(backend, nodes, index, k - 1);
      var resp := backend(Instant(ComponentQuery(ck)));
      if resp.Success? {
        ApplyResultAt(prev, index, ck, resp.result, i, nodes[i].nodeName);
      }
    }
  }

  /** The first k components applied, seen from one record and one component. */
  lemma {:induction false} EnrichAt(
    backend: Backend, nodes: seq<NodePowerData>, index: map<string, nat>, k: nat,
    i: nat, c: NodeComponent)
    requires IndexFits(index, |nodes|) && k <= |ComponentOrder| && i < |nodes|
    requires forall n :: n in index && index[n] == i ==> n == nodes[i].nodeName
    ensures Lookup(Enrich(backend, nodes, index, k)[i].componentJoules, c)
         == if Rank(c) < k && nodes[i].nodeName in index && index[nodes[i].nodeName] == i
               && ComponentReading(backend, c, nodes[i].nodeName).Some?
            then ComponentReading(backend, c, nodes[i].nodeName)
            else Lookup(nodes[i].componentJoules, c)
    decreases k
  {
    if k > 0 {
      EnrichAt(backend, nodes, index, k - 1, i, c);
      var ck := ComponentOrder[k - 1];
      assert Rank(ck) == k - 1;
      var prev := Enrich(backend, nodes, index, k - 1);
      var resp := backend(Instant(ComponentQuery(ck)));
      var name, p := nodes[i].nodeName, prev[i];
      var reading := ComponentReading(backend, ck, name);
      var hit := name in index && index[name] == i && reading.Some?;
      var r := Enrich(backend, nodes, index, k)[i];
      assert r == if hit then SetComponent(p, ck, reading.value) else p by {
        if resp.Success? {
          ApplyResultAt(prev, index, ck, resp.result, i, name);
        }
      }
      if hit {
        assert Lookup(r.componentJoules, c) == if c == ck then reading else Lookup(p.componentJoules, c);
      }
    }
  }

  /**
   * After `_enrich_node_metrics`, record i keeps its name, platform value, timestamp and
   * labels, and component c holds what the component query reports for the node when i
   * is the last record of its name, and its old value otherwise.
   */
  lemma EnrichedNode(backend: Backend, nodes: seq<NodePowerData>, i: nat, c: NodeComponent)
    requires i < |nodes|
    ensures |Enriched(backend, nodes)| == |nodes|
    ensures var r := Enriched(backend, nodes)[i];
      && r == nodes[i].(componentJoules := r.componentJoules)
      && Lookup(r.componentJoules, c)
         == if IsLast(nodes, i) && ComponentReading(backend, c, nodes[i].nodeName).Some?
            then ComponentReading(backend, c, nodes[i].nodeName)
            else Lookup(nodes[i].componentJoules, c)
  {
    var index := NodeIndex(nodes);
    NodeIndexLast(nodes, i);
    EnrichKeepsFields(backend, nodes, index, |ComponentOrder|, i);
    EnrichAt(backend, nodes, index, |ComponentOrder|, i, c);
  }

  /** A record shadowed by a later one of the same name is returned unchanged. */
  lemma EnrichSkipsShadowedNode(backend: Backend, nodes: seq<NodePowerData>, i: nat, j: nat)
    requires i < j < |nodes| && nodes[i].nodeName == nodes[j].nodeName
    ensures Enriched(backend, nodes)[i] == nodes[i]
  {
    var r := Enriched(backend, nodes)[i];
    assert !IsLast(nodes, i) by {
      assert nodes[j].nodeName == nodes[i].nodeName;
    }
    EnrichedNode(backend, nodes, i, Cpu);
    forall c: NodeComponent
      ensures c in r.componentJoules <==> c in nodes[i].componentJoules
      ensures c in r.componentJoules ==> r.componentJoules[c] == nodes[i].componentJoules[c]
    {
      EnrichedNode(backend, nodes, i, c);
    }
    assert r.componentJoules == nodes[i].componentJoules;
  }

  /** The loop over one component's result, writing through the name map. */
  method EnrichComponent(
    nodes: seq<NodePowerData>, nodeMap: map<string, nat>, c: NodeComponent, series: seq<Series>)
    returns (enriched: seq<NodePowerData>)
    requires IndexFits(nodeMap, |nodes|)
    ensures enriched == ApplyResult(nodes, nodeMap, c, series)
  {
    enriched := nodes;
    var j := 0;
    while j < |series|
      invariant 0 <= j <= |series|
      invariant enriched == ApplyResult(nodes, nodeMap, c, series[..j])
    {
      var s := series[j];
      assert series[..j + 1][..j] == series[..j];
      if |s.value| > 1 {
        var name := LabelOr(s.metric, "instance");
        if name in nodeMap {
          var idx := nodeMap[name];
          enriched := enriched[idx := enriched[idx].(componentJoules := enriched[idx].componentJoules[c := s.value[1]])];
        }
      }
      j := j + 1;
    }
    assert series[..j] == series;
  }

  /** `_enrich_node_metrics`: the four component queries in order, each failure skipped. */
  method EnrichNodeMetrics(backend: Backend, nodes: seq<NodePowerData>) returns (enriched: seq<NodePowerData>)
    ensures enriched == Enriched(backend, nodes)
  {
    var nodeMap := NodeIndex(nodes);
    enriched := nodes;
    for k := 0 to |ComponentOrder|
      invariant enriched == Enrich(backend, nodes, nodeMap, k)
    {
      var c := ComponentOrder[k];
      var result := backend(Instant(ComponentQuery(c)));
      if result.Success? {
        enriched := EnrichComponent(enriched, nodeMap, c, result.result);
      }
    }
  }

  /**
   * `get_node_power_metrics`: one record per sampled platform series, then enriched;
   * None where the platform query raises.
   */
  method NodePowerMetrics(backend: Backend) returns (r: Option<seq<NodePowerData>>)
    ensures var resp := backend(Instant(NodePlatformJoules));
      && (r.Some? <==> resp.Success?)
      && (r.Some? ==> r.value == Enriched(backend, NodesOf(resp.result)))
  {
    var result := backend(Instant(NodePlatformJoules));
    if result.Failure? {
      return None;
    }
    var series := result.result;
    var nodes: seq<NodePowerData> := [];
    var i := 0;
    while i < |series|
      invariant 0 <= i <= |series|
      invariant nodes == NodesOf(series[..i])
    {
      var s := series[i];
      assert series[..i + 1][..i] == series[..i];
      if |s.value| > 1 {
        nodes := nodes + [NodePowerData(LabelOr(s.metric, "instance"), s.value[1], s.value[0], s.metric, map[])];
      }
      i := i + 1;
    }
    assert series[..i] == series;
    nodes := EnrichNodeMetrics(backend, nodes);
    return Some(nodes);
  }
}
