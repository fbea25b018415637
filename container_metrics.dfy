/**
 * `get_container_power_metrics`, which keeps the latest sample of each series of a range
 * query, and `get_workload_power_summary`, which sums those samples for one workload.
 */
module ContainerMetrics {
  import opened Wrappers
  import opened Prometheus
  import opened Queries
  import opened QueryClient
  import opened ContainerRecords

  predicate HasValues(s: Series) {
    |s.values| > 0
  }

  /** `values[-1]`. */
  function Latest(s: Series): seq<real>
    requires HasValues(s)
  {
    s.values[|s.values| - 1]
  }

  /** `values[-1][0]` and `values[-1][1]` exist; otherwise the loop raises IndexError. */
  predicate Readable(s: Series) {
    !HasValues(s) || |Latest(s)| >= 2
  }

  predicate AllReadable(ss: seq<Series>) {
    forall i :: 0 <= i < |ss| ==> Readable(ss[i])
  }

  /** The record built from the latest sample of one series. */
  function RecordOf(s: Series): ContainerPowerData
    requires HasValues(s) && |Latest(s)| >= 2
  {
    ContainerPowerData(
      LabelOr(s.metric, "container_name"),
      LabelOr(s.metric, "pod_name"),
      LabelOr(s.metric, "container_namespace"),
      LabelOr(s.metric, "instance"),
      Latest(s)[1],
      Latest(s)[0],
      s.metric,
      map[])
  }

  /** The records of a whole result: one per series that has values, in series order. */
  function RecordsOf(ss: seq<Series>): seq<ContainerPowerData>
    requires AllReadable(ss)
  {
    if ss == [] then []
    else
      var s := ss[|ss| - 1];
      assert forall i :: 0 <= i < |ss| - 1 ==> ss[..|ss| - 1][i] == ss[i];
      RecordsOf(ss[..|ss| - 1]) + (if HasValues(s) then [RecordOf(s)] else [])
  }

  /** The series that have values, in their order: the reference for RecordsOf. */
  function WithValues(ss: seq<Series>): seq<Series> {
    Filter(HasValues, ss)
  }

  /** WithValues keeps exactly the series that have values. */
  lemma {:induction false} WithValuesMembers(ss: seq<Series>)
    ensures |WithValues(ss)| <= |ss|
    ensures forall s :: s in WithValues(ss) <==> s in ss && HasValues(s)
    ensures |WithValues(ss)| == |ss| <==> forall i :: 0 <= i < |ss| ==> HasValues(ss[i])
    decreases |ss|
  {
    if ss != [] {
      WithValuesMembers(ss[1..]);
      assert ss == [ss[0]] + ss[1..];
      if !HasValues(ss[0]) {
        assert |WithValues(ss)| < |ss|;
      }
    }
  }

  /**
   * The records match the series that have values one for one and in order: record k
   * is built from the k-th such series, so its power is that series' last value.
   */
  lemma {:induction false} RecordsOfMatchesWithValues(ss: seq<Series>)
    requires AllReadable(ss)
    ensures |RecordsOf(ss)| == |WithValues(ss)|
    ensures forall k :: 0 <= k < |WithValues(ss)| ==>
      HasValues(WithValues(ss)[k]) && |Latest(WithValues(ss)[k])| >= 2
      && RecordsOf(ss)[k] == RecordOf(WithValues(ss)[k])
    decreases |ss|
  {
    if ss != [] {
      var init, s := ss[..|ss| - 1], ss[|ss| - 1];
      assert ss == init + [s];
      assert AllReadable(init) by {
        forall i | 0 <= i < |init| ensures Readable(init[i]) { assert init[i] == ss[i]; }
      }
      RecordsOfMatchesWithValues(init);
      FilterSnoc(HasValues, init, s);
      assert Readable(ss[|ss| - 1]);
    }
  }

  /** Each record carries its series' labels and its latest sample. */
  lemma RecordOfFields(s: Series)
    requires HasValues(s) && |Latest(s)| >= 2
    ensures RecordOf(s).powerJoules == s.values[|s.values| - 1][1]
    ensures RecordOf(s).timestamp == s.values[|s.values| - 1][0]
    ensures RecordOf(s).labels == s.metric
    ensures KeyOf(s.metric)
         == ContainerKey(RecordOf(s).containerName, RecordOf(s).podName, RecordOf(s).namespace)
    ensures RecordOf(s).nodeName == LabelOr(s.metric, "instance")
  {
  }

  /** Output order follows series order: the records of a concatenation concatenate. */
  lemma {:induction false} RecordsOfAppend(a: seq<Series>, b: seq<Series>)
    requires AllReadable(a) && AllReadable(b)
    ensures AllReadable(a + b)
    ensures RecordsOf(a + b) == RecordsOf(a) + RecordsOf(b)
    decreases |b|
  {
    assert AllReadable(a + b) by {
      forall i | 0 <= i < |a + b| ensures Readable((a + b)[i]) {
        if i < |a| { assert (a + b)[i] == a[i]; } else { assert (a + b)[i] == b[i - |a|]; }
      }
    }
    if b == [] {
      assert a + b == a;
    } else {
      var init := b[..|b| - 1];
      assert AllReadable(init) by {
        forall i | 0 <= i < |init| ensures Readable(init[i]) { assert init[i] == b[i]; }
      }
      RecordsOfAppend(a, init);
      assert (a + b)[..|a + b| - 1] == a + init;
      assert (a + b)[|a + b| - 1] == b[|b| - 1];
    }
  }

  /**
   * `get_container_power_metrics`: the query with its filters, over the given window;
   * None where the call raises (the query fails, the token is rejected, or a latest
   * sample lacks its timestamp or value).
   */
  method ContainerPowerMetrics(
    backend: Backend, namespace: Option<string>, workload: Option<string>, timeRange: string)
    returns (r: Option<seq<ContainerPowerData>>)
    ensures var resp := PrometheusQuery(backend, ContainerQuery(namespace, workload), Some(timeRange));
      && (r.Some? <==> resp.Success? && AllReadable(resp.result))
      && (r.Some? ==> r.value == RecordsOf(resp.result))
  {
    var query := ContainerQuery(namespace, workload);
    var result := PrometheusQuery(backend, query, Some(timeRange));
    if result.Failure? {
      return None;
    }
    var series := result.result;
    var containers: seq<ContainerPowerData> := [];
    var i := 0;
    while i < |series|
      invariant 0 <= i <= |series|
      invariant AllReadable(series[..i])
      invariant containers == RecordsOf(series[..i])
    {
      var s := series[i];
      assert series[..i + 1] == series[..i] + [s];
      if |s.values| > 0 {
        var latest := s.values[|s.values| - 1];
        if |latest| < 2 {
          return None;
        }
        containers := containers + [ContainerPowerData(
          LabelOr(s.metric, "container_name"),
          LabelOr(s.metric, "pod_name"),
          LabelOr(s.metric, "container_namespace"),
          LabelOr(s.metric, "instance"),
          latest[1],
          latest[0],
          s.metric,
          map[])];
      }
      i := i + 1;
    }
    assert series[..i] == series;
    return Some(containers);
  }

  // ---------------------------------------------------------------------------
  // get_workload_power_summary
  // ---------------------------------------------------------------------------

  /** One element of the summary's `containers` list. */
  datatype ContainerEntry = ContainerEntry(name: string, pod: string, namespace: string, powerJoules: real)

  /** The summary dict: the "Workload data not found" form, or the full one. */
  datatype WorkloadSummary =
    | NotFound(workloadName: string, totalPowerJoules: real, containerCount: nat)
    | Found(workloadName: string, totalPowerJoules: real, containerCount: nat,
            containers: seq<ContainerEntry>)

  /** `sum(c.power_joules for c in containers)`, added left to right. */
  function TotalPower(cs: seq<ContainerPowerData>): real {
    if cs == [] then 0.0 else TotalPower(cs[..|cs| - 1]) + cs[|cs| - 1].powerJoules
  }

  function EntryOf(c: ContainerPowerData): ContainerEntry {
    ContainerEntry(c.containerName, c.podName, c.namespace, c.powerJoules)
  }

  /** The sum of the entries the summary lists. */
  function EntriesPower(es: seq<ContainerEntry>): real {
    if es == [] then 0.0 else es[0].powerJoules + EntriesPower(es[1..])
  }

  lemma {:induction false} TotalPowerAppend(a: seq<ContainerPowerData>, b: seq<ContainerPowerData>)
    ensures TotalPower(a + b) == TotalPower(a) + TotalPower(b)
    decreases |b|
  {
    if b == [] {
      assert a + b == a;
    } else {
      TotalPowerAppend(a, b[..|b| - 1]);
      assert (a + b)[..|a + b| - 1] == a + b[..|b| - 1];
    }
  }

  lemma {:induction false} TotalPowerIsEntriesPower(cs: seq<ContainerPowerData>)
    ensures TotalPower(cs) == EntriesPower(seq(|cs|, i requires 0 <= i < |cs| => EntryOf(cs[i])))
    decreases |cs|
  {
    if cs != [] {
      var tail := cs[1..];
      TotalPowerIsEntriesPower(tail);
      TotalPowerAppend([cs[0]], tail);
      assert cs == [cs[0]] + tail;
      assert [cs[0]][..0] == [];
      var es := seq(|cs|, i requires 0 <= i < |cs| => EntryOf(cs[i]));
      assert es[1..] == seq(|tail|, i requires 0 <= i < |tail| => EntryOf(tail[i]));
    }
  }

  function Summarize(workloadName: string, cs: seq<ContainerPowerData>): (s: WorkloadSummary)
    ensures s.workloadName == workloadName && s.containerCount == |cs|
    ensures s.NotFound? <==> cs == []
    ensures s.NotFound? ==> s.totalPowerJoules == 0.0
    ensures s.Found? ==> |s.containers| == |cs|
    ensures s.Found? ==> forall i :: 0 <= i < |cs| ==>
      && s.containers[i].powerJoules == cs[i].powerJoules
      && s.containers[i].name == cs[i].containerName
      && s.containers[i].pod == cs[i].podName
      && s.containers[i].namespace == cs[i].namespace
    ensures s.Found? ==> s.totalPowerJoules == EntriesPower(s.containers)
  {
    if cs == [] then NotFound(workloadName, 0.0, 0)
    else
      var entries := seq(|cs|, i requires 0 <= i < |cs| => EntryOf(cs[i]));
      TotalPowerIsEntriesPower(cs);
      Found(workloadName, TotalPower(cs), |cs|, entries)
  }

  /**
   * `get_workload_power_summary`: the containers of the workload over the last hour,
   * summarised; None where collecting them raises.
   */
  method WorkloadPowerSummary(backend: Backend, workloadName: string) returns (r: Option<WorkloadSummary>)
    ensures var resp := backend(Range(ContainerQuery(None, Some(workloadName)), 60));
      && (r.Some? <==> resp.Success? && AllReadable(resp.result))
      && (r.Some? ==> r.value == Summarize(workloadName, RecordsOf(resp.result)))
  {
    OneHourWindow(backend, ContainerQuery(None, Some(workloadName)));
    var containers := ContainerPowerMetrics(backend, None, Some(workloadName), "1h");
    if containers.None? {
      return None;
    }
    return Some(Summarize(workloadName, containers.value));
  }
}
