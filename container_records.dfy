/**
 * The container record (`ContainerPowerData` as client.py builds it) and the key that
 * correlates series of different metrics to one container.
 */
module ContainerRecords {
  import opened Prometheus

  /**
   * The five container metric types of `get_all_container_metrics`, in the order of
   * its `queries` dict.  Each names the attribute `{type}_power_joules` it sets.
   */
  datatype ContainerMetric = Total | Cpu | Gpu | Memory | Other

  /**
   * A container record.  `componentJoules` holds the `{type}_power_joules` attributes
   * that setattr has assigned; a metric absent from it keeps whatever default the
   * record class gives it (that class is not part of this model).
   */
  datatype ContainerPowerData = ContainerPowerData(
    containerName: string,
    podName: string,
    namespace: string,
    nodeName: string,
    powerJoules: real,
    timestamp: real,
    labels: Labels,
    componentJoules: map<ContainerMetric, real>)

  /** `(container_name, pod_name, container_namespace)`, "unknown" where a label is missing. */
  datatype ContainerKey = ContainerKey(containerName: string, podName: string, namespace: string)

  function KeyOf(labels: Labels): ContainerKey {
    ContainerKey(
      LabelOr(labels, "container_name"),
      LabelOr(labels, "pod_name"),
      LabelOr(labels, "container_namespace"))
  }

  /** The labels the key is made of. */
  predicate IsKeyLabel(name: string) {
    name == "container_name" || name == "pod_name" || name == "container_namespace"
  }

  /** Two label sets that agree on the three key labels have the same key. */
  lemma KeyIgnoresOtherLabels(a: Labels, b: Labels)
    requires forall name :: IsKeyLabel(name) ==> (name in a <==> name in b)
    requires forall name :: IsKeyLabel(name) && name in a ==> a[name] == b[name]
    ensures KeyOf(a) == KeyOf(b)
  {
    assert IsKeyLabel("container_name") && IsKeyLabel("pod_name") && IsKeyLabel("container_namespace");
  }

  /** Adding or changing any other label leaves the key unchanged. */
  lemma KeyIgnoresLabel(labels: Labels, name: string, v: string)
    requires !IsKeyLabel(name)
    ensures KeyOf(labels[name := v]) == KeyOf(labels)
  {
  }

  /** An empty label set is the all-"unknown" key; so is one that spells "unknown" out. */
  lemma KeyOfEmpty()
    ensures KeyOf(map[]) == ContainerKey("unknown", "unknown", "unknown")
    ensures KeyOf(map["container_name" := "unknown", "pod_name" := "unknown",
                      "container_namespace" := "unknown"]) == KeyOf(map[])
  {
  }

  /** The key reads each of its three labels, and nothing else. */
  lemma KeyFields(labels: Labels)
    ensures KeyOf(labels).containerName == LabelOr(labels, "container_name")
    ensures KeyOf(labels).podName == LabelOr(labels, "pod_name")
    ensures KeyOf(labels).namespace == LabelOr(labels, "container_namespace")
  {
  }
}
