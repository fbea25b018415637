/**
 * `get_all_container_metrics`: five instant queries, one per container metric type, are
 * merged into one record per (container, pod, namespace) key.  The dict
 * `containers_map` keeps insertion order, so it is modelled as the key order plus a map.
 */
module ContainerMerge {
  import opened Wrappers
  import opened Prometheus
  import opened Queries
  import opened ContainerRecords

  /** The `queries` dict in iteration order. */
  const MetricOrder: seq<ContainerMetric> := [Total, Cpu, Gpu, Memory, Other]

  function MetricName(t: ContainerMetric): string {
    match t
    case Total => ContainerJoules
    case Cpu => ContainerCpuJoules
    case Gpu => ContainerGpuJoules
    case Memory => ContainerDramJoules
    case Other => ContainerOtherJoules
  }

  function QueryOf(t: ContainerMetric, namespace: Option<string>): Query {
    Instant(NamespacedQuery(MetricName(t), namespace))
  }

  // ---------------------------------------------------------------------------
  // The merge as a fold over the series it reads
  // ---------------------------------------------------------------------------

  /** A series of the result of the query for `metric`. */
  datatype Event = Event(metric: ContainerMetric, series: Series)

  function KeyOfEvent(e: Event): ContainerKey {
    KeyOf(e.series.metric)
  }

  /** The series of one query's result, tagged with its metric type. */
  function Tagged(t: ContainerMetric, ss: seq<Series>): (es: seq<Event>)
    ensures |es| == |ss|
    ensures forall i :: 0 <= i < |ss| ==> es[i] == Event(t, ss[i])
  {
    seq(|ss|, i requires 0 <= i < |ss| => Event(t, ss[i]))
  }

  /** The record created at a key's first appearance. */
  function Shell(s: Series): ContainerPowerData
    requires HasSample(s)
  {
    var k := KeyOf(s.metric);
    ContainerPowerData(k.containerName, k.podName, k.namespace,
                       LabelOr(s.metric, "instance"), 0.0, s.value[0], s.metric, map[])
  }

  /** `setattr(record, f"{metric_type}_power_joules", v)`. */
  function SetComponent(c: ContainerPowerData, t: ContainerMetric, v: real): ContainerPowerData {
    c.(componentJoules := c.componentJoules[t := v])
  }

  datatype MergeState = MergeState(order: seq<ContainerKey>, records: map<ContainerKey, ContainerPowerData>)

  /** The keys in `order` are distinct and are exactly the keys of `records`. */
  ghost predicate Consistent(st: MergeState) {
    && (forall i, j :: 0 <= i < j < |st.order| ==> st.order[i] != st.order[j])
    && (forall k :: k in st.records <==> k in st.order)
  }

  const Empty: MergeState := MergeState([], map[])

  /** One pass of the inner loop body: skip a series without a sample, else merge it. */
  function Step(st: MergeState, e: Event): MergeState {
    if !HasSample(e.series) then st
    else
      var k := KeyOfEvent(e);
      var st1 := if k in st.records then st
                 else MergeState(st.order + [k], st.records[k := Shell(e.series)]);
      MergeState(st1.order, st1.records[k := SetComponent(st1.records[k], e.metric, e.series.value[1])])
  }

  function Fold(es: seq<Event>): (st: MergeState)
    ensures Consistent(st)
  {
    if es == [] then Empty
    else
      var prev := Fold(es[..|es| - 1]);
      var st := Step(prev, es[|es| - 1]);
      assert forall i :: 0 <= i < |prev.order| ==> st.order[i] == prev.order[i];
      st
  }

  lemma FoldSnoc(es: seq<Event>, e: Event)
    ensures Fold(es + [e]) == Step(Fold(es), e)
  {
    assert (es + [e])[..|es|] == es;
  }

  /** The list of records `list(containers_map.values())`. */
  function Records(st: MergeState): (rs: seq<ContainerPowerData>)
    requires Consistent(st)
    ensures |rs| == |st.order|
  {
    seq(|st.order|, i requires 0 <= i < |st.order| => st.records[st.order[i]])
  }

  /** The first n queries all returned a result. */
  predicate Succeeded(backend: Backend, namespace: Option<string>, n: nat)
    requires n <= |MetricOrder|
  {
    forall i :: 0 <= i < n ==> backend(QueryOf(MetricOrder[i], namespace)).Success?
  }

  /** The series of the first n queries' results, query by query in dict order. */
  function PassEvents(backend: Backend, namespace: Option<string>, n: nat): seq<Event>
    requires n <= |MetricOrder| && Succeeded(backend, namespace, n)
  {
    if n == 0 then []
    else
      PassEvents(backend, namespace, n - 1)
      + Tagged(MetricOrder[n - 1], backend(QueryOf(MetricOrder[n - 1], namespace)).result)
  }

  /** `list(...)[:limit]` with Python's slice rules. */
  function PyTake<T>(s: seq<T>, limit: int): (r: seq<T>)
    ensures limit >= 0 ==> r == s[..if limit < |s| then limit else |s|]
    ensures limit < 0 ==> r == s[..if |s| + limit > 0 then |s| + limit else 0]
  {
    var stop := if limit < 0 then limit + |s| else limit;
    s[..if stop < 0 then 0 else if stop > |s| then |s| else stop]
  }

  // ---------------------------------------------------------------------------
  // get_all_container_metrics
  // ---------------------------------------------------------------------------

  /**
   * The inner loop body of `get_all_container_metrics`: a series with a sample creates
   * its key's record on first appearance and then sets its metric type's field.
   */
  method MergeSeries(
    order: seq<ContainerKey>, containers: map<ContainerKey, ContainerPowerData>,
    metricType: ContainerMetric, s: Series)
    returns (order': seq<ContainerKey>, containers': map<ContainerKey, ContainerPowerData>)
    ensures MergeState(order', containers') == Step(MergeState(order, containers), Event(metricType, s))
  {
    order', containers' := order, containers;
    if |s.value| > 1 {
      var key := KeyOf(s.metric);
      if key !in containers' {
        containers' := containers'[key := Shell(s)];
        order' := order' + [key];
      }
      containers' := containers'[key := SetComponent(containers'[key], metricType, s.value[1])];
    }
  }

  lemma TaggedSnoc(before: seq<Event>, t: ContainerMetric, ss: seq<Series>, j: nat)
    requires j < |ss|
    ensures before + Tagged(t, ss[..j + 1]) == before + Tagged(t, ss[..j]) + [Event(t, ss[j])]
  {
  }

  /** The inner loop of `get_all_container_metrics` over one query's result. */
  method MergeQueryResult(
    ghost before: seq<Event>,
    order: seq<ContainerKey>, containers: map<ContainerKey, ContainerPowerData>,
    metricType: ContainerMetric, series: seq<Series>)
    returns (order': seq<ContainerKey>, containers': map<ContainerKey, ContainerPowerData>)
    requires MergeState(order, containers) == Fold(before)
    ensures MergeState(order', containers') == Fold(before + Tagged(metricType, series))
  {
    order', containers' := order, containers;
    assert before + Tagged(metricType, series[..0]) == before;
    var j := 0;
    while j < |series|
      invariant 0 <= j <= |series|
      invariant MergeState(order', containers') == Fold(before + Tagged(metricType, series[..j]))
    {
      TaggedSnoc(before, metricType, series, j);
      FoldSnoc(before + Tagged(metricType, series[..j]), Event(metricType, series[j]));
      order', containers' := MergeSeries(order', containers', metricType, series[j]);
      j := j + 1;
    }
    assert series[..j] == series;
  }

  /**
   * `get_all_container_metrics`: None where any of the five queries raises; otherwise
   * the merged records of all five results, cut to `limit`.
   */
  method AllContainerMetrics(backend: Backend, namespace: Option<string>, limit: int)
    returns (r: Option<seq<ContainerPowerData>>)
    ensures r.Some? <==> Succeeded(backend, namespace, |MetricOrder|)
    ensures r.Some? ==> r.value == PyTake(Records(Fold(PassEvents(backend, namespace, |MetricOrder|))), limit)
  {
    var order: seq<ContainerKey> := [];
    var containers: map<ContainerKey, ContainerPowerData> := map[];
    var i := 0;
    while i < |MetricOrder|
      invariant 0 <= i <= |MetricOrder|
      invariant Succeeded(backend, namespace, i)
      invariant MergeState(order, containers) == Fold(PassEvents(backend, namespace, i))
    {
      var metricType := MetricOrder[i];
      var result := backend(QueryOf(metricType, namespace));
      if result.Failure? {
        return None;
      }
      order, containers := MergeQueryResult(PassEvents(backend, namespace, i), order, containers, metricType, result.result);
      assert Succeeded(backend, namespace, i + 1);
      i := i + 1;
    }
    r := Some(PyTake(Records(MergeState(order, containers)), limit));
  }

  // ---------------------------------------------------------------------------
  // What the merge produces
  // ---------------------------------------------------------------------------

  /** The first series with a sample that carries key k. */
  function FirstWith(es: seq<Event>, k: ContainerKey): (f: Option<Series>)
    ensures f.Some? ==> HasSample(f.value) && KeyOf(f.value.metric) == k
  {
    if es == [] then None
    else
      var f := FirstWith(es[..|es| - 1], k);
      var e := es[|es| - 1];
      if f.Some? then f
      else if HasSample(e.series) && KeyOfEvent(e) == k then Some(e.series)
      else None
  }

  /** The value of the last sample of metric t that carries key k. */
  function LastValue(es: seq<Event>, k: ContainerKey, t: ContainerMetric): Option<real> {
    if es == [] then None
    else
      var e := es[|es| - 1];
      if HasSample(e.series) && KeyOfEvent(e) == k && e.metric == t then Some(e.series.value[1])
      else LastValue(es[..|es| - 1], k, t)
  }

  lemma {:induction false} LastValueNeedsFirst(es: seq<Event>, k: ContainerKey, t: ContainerMetric)
    requires LastValue(es, k, t).Some?
    ensures FirstWith(es, k).Some?
    decreases |es|
  {
    var e := es[|es| - 1];
    if !(HasSample(e.series) && KeyOfEvent(e) == k && e.metric == t) {
      LastValueNeedsFirst(es[..|es| - 1], k, t);
    }
  }

  /** Everything a record of the merge holds, given the series it was made from. */
  ghost predicate Describes(es: seq<Event>, k: ContainerKey, c: ContainerPowerData) {
    && FirstWith(es, k).Some?
    && var first := FirstWith(es, k).value;
    && c.containerName == k.containerName
    && c.podName == k.podName
    && c.namespace == k.namespace
    && c.nodeName == LabelOr(first.metric, "instance")
    && c.timestamp == first.value[0]
    && c.labels == first.metric
    && c.powerJoules == 0.0
    && (forall t :: t in c.componentJoules <==> LastValue(es, k, t).Some?)
    && (forall t :: t in c.componentJoules ==> c.componentJoules[t] == LastValue(es, k, t).value)
  }

  /** A series for another key, or without a sample, leaves what is known about k. */
  lemma DescribesOther(init: seq<Event>, e: Event, k: ContainerKey, c: ContainerPowerData)
    requires !HasSample(e.series) || KeyOfEvent(e) != k
    requires Describes(init, k, c)
    ensures Describes(init + [e], k, c)
  {
    var es := init + [e];
    assert es[..|es| - 1] == init;
    assert FirstWith(es, k) == FirstWith(init, k);
    assert forall t :: LastValue(es, k, t) == LastValue(init, k, t);
  }

  /** A later sample for k sets its own metric's field and keeps the rest. */
  lemma DescribesUpdate(init: seq<Event>, e: Event, c: ContainerPowerData)
    requires HasSample(e.series)
    requires Describes(init, KeyOfEvent(e), c)
    ensures Describes(init + [e], KeyOfEvent(e), SetComponent(c, e.metric, e.series.value[1]))
  {
    var es, k := init + [e], KeyOfEvent(e);
    assert es[..|es| - 1] == init;
    assert FirstWith(es, k) == FirstWith(init, k);
    assert forall t :: t != e.metric ==> LastValue(es, k, t) == LastValue(init, k, t);
    assert LastValue(es, k, e.metric) == Some(e.series.value[1]);
  }

  /** The first sample for k makes its shell and sets its own metric's field. */
  lemma DescribesNew(init: seq<Event>, e: Event)
    requires HasSample(e.series)
    requires FirstWith(init, KeyOfEvent(e)).None?
    ensures Describes(init + [e], KeyOfEvent(e), SetComponent(Shell(e.series), e.metric, e.series.value[1]))
  {
    var es, k := init + [e], KeyOfEvent(e);
    assert es[..|es| - 1] == init;
    assert FirstWith(es, k) == Some(e.series);
    forall t
      ensures LastValue(es, k, t) == if t == e.metric then Some(e.series.value[1]) else None
    {
      if LastValue(init, k, t).Some? { LastValueNeedsFirst(init, k, t); }
    }
  }

  /** The keys of the merged state are the keys of the series that have a sample. */
  lemma {:induction false} FoldDomain(es: seq<Event>)
    ensures forall k :: k in Fold(es).records <==> FirstWith(es, k).Some?
    decreases |es|
  {
    if es != [] {
      FoldDomain(es[..|es| - 1]);
    }
  }

  /**
   * Each record of the merged state takes node name, timestamp and labels from its
   * key's first sample and each `{type}_power_joules` from the last sample of that
   * type with its key.
   */
  lemma {:induction false} FoldRecords(es: seq<Event>)
    ensures forall k :: k in Fold(es).records <==> FirstWith(es, k).Some?
    ensures forall k :: k in Fold(es).records ==> Describes(es, k, Fold(es).records[k])
    decreases |es|
  {
    FoldDomain(es);
    if es != [] {
      var init, e := es[..|es| - 1], es[|es| - 1];
      assert es == init + [e];
      FoldRecords(init);
      var prev := Fold(init);
      var st := Fold(es);
      assert st == Step(prev, e);
      var k0 := KeyOfEvent(e);
      forall k | k in st.records
        ensures Describes(es, k, st.records[k])
      {
        if !HasSample(e.series) || k != k0 {
          assert st.records[k] == prev.records[k];
          DescribesOther(init, e, k, prev.records[k]);
        } else if k0 in prev.records {
          DescribesUpdate(init, e, prev.records[k]);
        } else {
          DescribesNew(init, e);
        }
      }
    }
  }

  // ---------------------------------------------------------------------------
  // Order of the records
  // ---------------------------------------------------------------------------

  /** The keys of the series that have a sample, in order, repeats included. */
  function KeysOf(es: seq<Event>): seq<ContainerKey> {
    if es == [] then []
    else
      var e := es[|es| - 1];
      KeysOf(es[..|es| - 1]) + (if HasSample(e.series) then [KeyOfEvent(e)] else [])
  }

  /** The distinct elements of xs in order of first appearance. */
  function Dedup(xs: seq<ContainerKey>): seq<ContainerKey> {
    if xs == [] then []
    else
      var d := Dedup(xs[..|xs| - 1]);
      if xs[|xs| - 1] in d then d else d + [xs[|xs| - 1]]
  }

  /** Position of the first occurrence of x. */
  function FirstIndex(xs: seq<ContainerKey>, x: ContainerKey): (n: nat)
    requires x in xs
    ensures n < |xs| && xs[n] == x
    ensures forall i :: 0 <= i < n ==> xs[i] != x
  {
    if xs[0] == x then 0 else 1 + FirstIndex(xs[1..], x)
  }

  lemma FirstIndexSnoc(xs: seq<ContainerKey>, y: ContainerKey, x: ContainerKey)
    requires x in xs
    ensures x in xs + [y] && FirstIndex(xs + [y], x) == FirstIndex(xs, x)
  {
    var n := FirstIndex(xs, x);
    var m := FirstIndex(xs + [y], x);
    assert (xs + [y])[n] == x;
    assert xs[m] == x || m == |xs|;
  }

  /**
   * Dedup keeps each element once, loses none, and lists them by the position of
   * their first occurrence.
   */
  lemma {:induction false} DedupFirstAppearance(xs: seq<ContainerKey>)
    ensures forall x :: x in Dedup(xs) <==> x in xs
    ensures forall i, j :: 0 <= i < j < |Dedup(xs)| ==> Dedup(xs)[i] != Dedup(xs)[j]
    ensures forall i, j :: 0 <= i < j < |Dedup(xs)| ==>
      Dedup(xs)[i] in xs && Dedup(xs)[j] in xs
      && FirstIndex(xs, Dedup(xs)[i]) < FirstIndex(xs, Dedup(xs)[j])
    decreases |xs|
  {
    if xs != [] {
      var init, y := xs[..|xs| - 1], xs[|xs| - 1];
      assert xs == init + [y];
      DedupFirstAppearance(init);
      var d := Dedup(init);
      forall x | x in init ensures FirstIndex(xs, x) == FirstIndex(init, x) {
        FirstIndexSnoc(init, y, x);
      }
      if y !in d {
        assert y !in init;
        assert FirstIndex(xs, y) == |init|;
        var d' := d + [y];
        assert Dedup(xs) == d';
        forall i, j | 0 <= i < j < |d'|
          ensures d'[i] in xs && d'[j] in xs && FirstIndex(xs, d'[i]) < FirstIndex(xs, d'[j])
        {
          if j < |d| {
            assert d'[i] == d[i] && d'[j] == d[j];
          } else {
            var x := d[i];
            assert x in d;
            assert x in init;
            assert FirstIndex(xs, x) == FirstIndex(init, x) < |init|;
          }
        }
      }
    }
  }

  /** The key order of the merge is the first-appearance order of the keys. */
  lemma {:induction false} FoldOrder(es: seq<Event>)
    ensures Fold(es).order == Dedup(KeysOf(es))
    decreases |es|
  {
    if es != [] {
      var init, e := es[..|es| - 1], es[|es| - 1];
      FoldOrder(init);
      assert Fold(es) == Step(Fold(init), e);
      var ks := KeysOf(es);
      if HasSample(e.series) {
        var k, prev := KeyOfEvent(e), Fold(init);
        assert ks == KeysOf(init) + [k];
        assert ks[..|ks| - 1] == KeysOf(init);
        assert Dedup(ks) == if k in prev.order then prev.order else prev.order + [k];
        assert k in prev.records <==> k in prev.order;
      } else {
        assert ks == KeysOf(init);
      }
    }
  }

  /** The key a record of the merge answers to. */
  function RecordKey(c: ContainerPowerData): ContainerKey {
    ContainerKey(c.containerName, c.podName, c.namespace)
  }

  lemma RecordsFollowOrder(es: seq<Event>)
    ensures forall i :: 0 <= i < |Fold(es).order| ==> RecordKey(Records(Fold(es))[i]) == Fold(es).order[i]
  {
    FoldRecords(es);
    var st := Fold(es);
    forall i | 0 <= i < |st.order| ensures RecordKey(Records(st)[i]) == st.order[i] {
      assert Describes(es, st.order[i], st.records[st.order[i]]);
    }
  }

  /** Every record of the merged list is the one its key's samples describe. */
  lemma MergedRecordsDescribed(es: seq<Event>)
    ensures forall i :: 0 <= i < |Records(Fold(es))| ==>
      Describes(es, RecordKey(Records(Fold(es))[i]), Records(Fold(es))[i])
  {
    FoldRecords(es);
    RecordsFollowOrder(es);
  }

  /**
   * The merged list holds exactly one record per distinct key, ordered by each key's
   * first appearance among the samples (the five queries taken in dict order).
   */
  lemma MergedRecordsOrder(es: seq<Event>)
    ensures var rs := Records(Fold(es));
      && (forall i, j :: 0 <= i < j < |rs| ==> RecordKey(rs[i]) != RecordKey(rs[j]))
      && (forall i, j :: 0 <= i < j < |rs| ==>
            RecordKey(rs[i]) in KeysOf(es) && RecordKey(rs[j]) in KeysOf(es)
            && FirstIndex(KeysOf(es), RecordKey(rs[i])) < FirstIndex(KeysOf(es), RecordKey(rs[j])))
      && (forall k :: k in KeysOf(es) <==> exists i :: 0 <= i < |rs| && RecordKey(rs[i]) == k)
  {
    var st := Fold(es);
    RecordsFollowOrder(es);
    FoldOrder(es);
    DedupFirstAppearance(KeysOf(es));
    var rs := Records(st);
    forall k | k in KeysOf(es)
      ensures exists i :: 0 <= i < |rs| && RecordKey(rs[i]) == k
    {
      assert k in st.order;
      var i :| 0 <= i < |st.order| && st.order[i] == k;
      assert RecordKey(rs[i]) == k;
    }
  }

  /**
   * A sample for a key that already has a record changes that record's field for its
   * metric type and nothing else: no other key, no other field, not the order.
   */
  lemma StepExisting(st: MergeState, e: Event)
    requires HasSample(e.series) && KeyOfEvent(e) in st.records
    ensures var st' := Step(st, e); var k := KeyOfEvent(e);
      && st'.order == st.order
      && st'.records.Keys == st.records.Keys
      && (forall k' :: k' in st.records && k' != k ==> st'.records[k'] == st.records[k'])
      && st'.records[k].componentJoules[e.metric] == e.series.value[1]
      && (forall t :: t != e.metric ==>
            (t in st'.records[k].componentJoules <==> t in st.records[k].componentJoules))
      && (forall t :: t != e.metric && t in st.records[k].componentJoules ==>
            st'.records[k].componentJoules[t] == st.records[k].componentJoules[t])
      && st'.records[k].(componentJoules := map[]) == st.records[k].(componentJoules := map[])
  {
  }

  /** A sample for a new key appends that key and a record of its first sample. */
  lemma StepNew(st: MergeState, e: Event)
    requires HasSample(e.series) && KeyOfEvent(e) !in st.records
    ensures var st' := Step(st, e); var k := KeyOfEvent(e);
      && st'.order == st.order + [k]
      && st'.records.Keys == st.records.Keys + {k}
      && (forall k' :: k' in st.records ==> st'.records[k'] == st.records[k'])
      && st'.records[k].componentJoules == map[e.metric := e.series.value[1]]
      && st'.records[k].nodeName == LabelOr(e.series.metric, "instance")
      && st'.records[k].timestamp == e.series.value[0]
      && st'.records[k].labels == e.series.metric
  {
  }

  /** Queries that all return no series give an empty list, not an error. */
  lemma EmptyResults(backend: Backend, namespace: Option<string>, limit: int)
    requires forall i :: 0 <= i < |MetricOrder| ==> backend(QueryOf(MetricOrder[i], namespace)) == Success([])
    ensures Succeeded(backend, namespace, |MetricOrder|)
    ensures PyTake(Records(Fold(PassEvents(backend, namespace, |MetricOrder|))), limit) == []
  {
    assert PassEvents(backend, namespace, 1) == [];
    assert PassEvents(backend, namespace, 2) == [];
    assert PassEvents(backend, namespace, 3) == [];
    assert PassEvents(backend, namespace, 4) == [];
    assert PassEvents(backend, namespace, 5) == [];
  }
}
