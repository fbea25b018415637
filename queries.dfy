/**
 * The PromQL expressions the client sends: the metric names it reads and the label
 * selectors `get_container_power_metrics` and `get_all_container_metrics` attach.
 */
module Queries {
  import opened Wrappers

  const ContainerJoules: string := "kepler_container_joules_total"
  const ContainerCpuJoules: string := "kepler_container_cpu_joules_total"
  const ContainerGpuJoules: string := "kepler_container_gpu_joules_total"
  const ContainerDramJoules: string := "kepler_container_dram_joules_total"
  const ContainerOtherJoules: string := "kepler_container_other_joules_total"

  const NodePlatformJoules: string := "kepler_node_platform_joules_total"
  const NodeCpuJoules: string := "kepler_node_cpu_joules_total"
  const NodeDramJoules: string := "kepler_node_dram_joules_total"
  const NodeUncoreJoules: string := "kepler_node_uncore_joules_total"
  const NodePackageJoules: string := "kepler_node_package_joules_total"

  /** The data-presence probe of `health_check`. */
  const KeplerUp: string := "up{job=~\"kepler.*\"}"

  /** Python truthiness of an optional string: None and "" are both false. */
  predicate Given(arg: Option<string>) {
    arg.Some? && arg.value != ""
  }

  function Join(sep: string, parts: seq<string>): string {
    if parts == [] then ""
    else if |parts| == 1 then parts[0]
    else parts[0] + sep + Join(sep, parts[1..])
  }

  function NamespaceFilter(namespace: string): string {
    "container_namespace=\"" + namespace + "\""
  }

  function WorkloadFilter(workload: string): string {
    "pod_name=~\".*" + workload + ".*\""
  }

  /** The `filters` list: the namespace filter first, then the workload regex. */
  function ContainerFilters(namespace: Option<string>, workload: Option<string>): seq<string> {
    (if Given(namespace) then [NamespaceFilter(namespace.value)] else [])
    + (if Given(workload) then [WorkloadFilter(workload.value)] else [])
  }

  /** `base{f1,f2,...}`, or `base` alone when there is no filter. */
  function Selector(base: string, filters: seq<string>): string {
    if filters == [] then base else base + "{" + Join(",", filters) + "}"
  }

  /** The query of `get_container_power_metrics`. */
  function ContainerQuery(namespace: Option<string>, workload: Option<string>): string {
    Selector(ContainerJoules, ContainerFilters(namespace, workload))
  }

  /** The query of `get_all_container_metrics` for one metric name. */
  function NamespacedQuery(base: string, namespace: Option<string>): string {
    if Given(namespace) then base + "{container_namespace=\"" + namespace.value + "\"}" else base
  }

  /** With only a namespace, the selector holds the namespace filter alone. */
  lemma ContainerQueryNamespaceOnly(namespace: string, workload: Option<string>)
    requires namespace != "" && !Given(workload)
    ensures ContainerQuery(Some(namespace), workload) == ContainerJoules + "{" + NamespaceFilter(namespace) + "}"
  {
    assert ContainerFilters(Some(namespace), workload) == [NamespaceFilter(namespace)];
    assert Join(",", [NamespaceFilter(namespace)]) == NamespaceFilter(namespace);
  }

  /** With only a workload, the selector holds the pod-name regex alone. */
  lemma ContainerQueryWorkloadOnly(namespace: Option<string>, workload: string)
    requires !Given(namespace) && workload != ""
    ensures ContainerQuery(namespace, Some(workload)) == ContainerJoules + "{" + WorkloadFilter(workload) + "}"
  {
    assert ContainerFilters(namespace, Some(workload)) == [WorkloadFilter(workload)];
    assert Join(",", [WorkloadFilter(workload)]) == WorkloadFilter(workload);
  }

  /** With both, the namespace filter comes first and the workload regex second. */
  lemma ContainerQueryBoth(namespace: string, workload: string)
    requires namespace != "" && workload != ""
    ensures ContainerQuery(Some(namespace), Some(workload))
         == ContainerJoules + "{" + NamespaceFilter(namespace) + "," + WorkloadFilter(workload) + "}"
  {
    var nf, wf := NamespaceFilter(namespace), WorkloadFilter(workload);
    assert ContainerFilters(Some(namespace), Some(workload)) == [nf, wf];
    assert Join(",", [nf, wf]) == nf + "," + wf;
  }

  /** The query is the bare metric name exactly when neither filter is given. */
  lemma ContainerQueryBare(namespace: Option<string>, workload: Option<string>)
    ensures ContainerQuery(namespace, workload) == ContainerJoules
        <==> !Given(namespace) && !Given(workload)
  {
    if Given(namespace) || Given(workload) {
      var q := ContainerQuery(namespace, workload);
      assert |q| > |ContainerJoules|;
    }
  }

  /**
   * Both methods filter a namespace the same way: the all-metrics query for the
   * total metric is the container query without a workload.
   */
  lemma NamespacedAgreesWithContainerQuery(namespace: Option<string>)
    ensures NamespacedQuery(ContainerJoules, namespace) == ContainerQuery(namespace, None)
  {
    if Given(namespace) {
      ContainerQueryNamespaceOnly(namespace.value, None);
    }
  }
}
