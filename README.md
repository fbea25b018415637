# Kepler client core, modelled in Dafny

This project models the deterministic core of `KeplerClient`, the component of the
kcloud cost estimator that reads Kepler's energy counters from Prometheus. The modelled
parts are:

- how a duration token such as `"30m"` is parsed;
- how the PromQL selectors are built;
- how container records are made from the latest sample of each series;
- how five container metric queries are merged into one record per container;
- how node records are built and then enriched with component values;
- how a workload's power is summed;
- how the health report is derived.

Prometheus is an input here. A `Backend` is a total function from a query (instant, or a
range over a number of minutes) to the response Prometheus would give: either a failure
or the `data.result` list. The answer the client reads is therefore decided by the query
string it builds. Sample values are reals that have already been parsed.

Modules, one per concern of `src/kepler_client/client.py`:

- `Wrappers`: `Option`.
- `Prometheus`: series, responses, queries and the backend; `labels.get(name, "unknown")`.
- `TimeRange`: Python's `int()` on ASCII text, the `timedelta` range, `_parse_time_range`.
- `Queries`: metric names and the label-selector strings.
- `QueryClient`: `_prometheus_query` without HTTP. A time range makes the request a range
  query, and a token that fails to parse fails the request.
- `ContainerRecords`: the container record and its `(container, pod, namespace)` key.
- `ContainerMetrics`: `get_container_power_metrics` and `get_workload_power_summary`.
- `ContainerMerge`: `get_all_container_metrics`. The insertion-ordered dict is a key order
  plus a map.
- `NodeMetrics`: `get_node_power_metrics` and `_enrich_node_metrics`.
- `Health`: the report of `health_check`.

Each loop of the source is a method with loop invariants, and each method is proved
equal to a specification function. The specification functions read the input the same
way the loop does, one element at a time from the front. The lemmas then state what that
function means, each against an independent description:

- the first-appearance order of the keys;
- the first sample of a key;
- the last sample of a metric for a key;
- the last series about a node.

Where the code and the intended design differ, the model follows the code:

- In `get_all_container_metrics`, any failing query fails the whole call. There is no
  tolerance for a single failed metric type.
- In the merge, the record of a key takes its node name, timestamp and labels from the
  key's first sample. Within one query, a later series with the same key overwrites that
  metric's field.
- No total-power policy is applied. The record's `power_joules` stays `0.0`, and the
  `"total"` query sets a separate `total_power_joules` field.
- A token without an `m`, `h` or `d` suffix becomes five minutes; it is not rejected.
  This includes the client's own default interval `"30s"`.
- `limit` follows Python slicing, so a negative limit drops records from the end.
- A namespace or workload that is `None` or the empty string adds no filter.
- A label missing from a series reads as `"unknown"`. So a missing label and the literal
  value `"unknown"` give the same key, and the same node name.
- `node_map` keeps the last node of each name, so only that node is enriched. An earlier
  node with the same name keeps its values.

## Model

| member | source | states |
|---|---|---|
| TimeRange.ParseTimeRange | src/kepler_client/client.py:124-133 | the parser: the suffix m, h or d selects minutes, hours or days of `int()` of the rest, with Fail where `int()` or timedelta raises; any other token is 5 minutes (its properties are the Parse* lemmas below) |
| TimeRange.PyInt | src/kepler_client/client.py:127 | Python's `int()` of a string: ASCII whitespace stripped, an optional sign, digits with single underscores between them; None where it raises (partnered by PyIntOfDecimal and PyIntAccepts) |
| TimeRange.ParseMinutes | src/kepler_client/client.py:126-127 | `Decimal(n) + "m"` parses to `Timedelta(n)`, which is exactly `Ok(n)` whenever n is within timedelta's range |
| TimeRange.ParseHours | src/kepler_client/client.py:128-129 | `Decimal(n) + "h"` parses to n·60 minutes, or Fail beyond timedelta's range |
| TimeRange.ParseDays | src/kepler_client/client.py:130-131 | `Decimal(n) + "d"` parses to n·1440 minutes, or Fail beyond timedelta's range |
| TimeRange.ParseDefault | src/kepler_client/client.py:132-133 | any token whose last character is not m, h or d (including the empty token) gives exactly 5 minutes |
| TimeRange.ParseSeconds | src/kepler_client/client.py:132-133 | the default interval `"30s"` gives 5 minutes |
| TimeRange.ParseMalformedFails | src/kepler_client/client.py:126-131 | an m/h/d suffix after a prefix with no digit, or with a character `int()` never accepts, gives Fail rather than the default |
| TimeRange.ParseFailsOnlyWithUnit | src/kepler_client/client.py:124-133 | Fail only happens with an m/h/d suffix, and only when `int()` rejects the prefix or the duration overflows timedelta |
| TimeRange.Timedelta | src/kepler_client/client.py:127-131 | a duration of m minutes is kept exactly when its floor-divided day count `m // 1440` lies within ±999999999 (`timedelta.max.days`), and is Fail otherwise |
| TimeRange.PyIntOfDecimal | src/kepler_client/client.py:127 | `int()` reads back every integer written in decimal, negative ones included |
| TimeRange.PyIntAccepts | src/kepler_client/client.py:127 | text `int()` accepts holds only whitespace, signs, digits and underscores, and at least one digit |
| TimeRange.NatDigitsWellFormed | src/kepler_client/client.py:127 | the decimal digits of n are a well-formed digit string whose value is n |
| TimeRange.StripLeftSpaces | src/kepler_client/client.py:127 | the leading part `int()` strips is all whitespace |
| TimeRange.StripRightSpaces | src/kepler_client/client.py:127 | the trailing part `int()` strips is all whitespace |
| Queries.ContainerQuery | src/kepler_client/client.py:146-156 | the selector of `get_container_power_metrics`: the namespace filter and then the workload regex, each only when truthy, comma-joined in braces, or the bare name (partnered by the ContainerQuery* lemmas) |
| Queries.NamespacedQuery | src/kepler_client/client.py:211-214 | the selector of `get_all_container_metrics`: the metric name with a namespace filter when the namespace is truthy |
| Queries.ContainerQueryBare | src/kepler_client/client.py:146-156 | the query is the bare metric name if and only if neither namespace nor workload is given |
| Queries.ContainerQueryNamespaceOnly | src/kepler_client/client.py:147-154 | with only a namespace, the selector holds just the namespace filter |
| Queries.ContainerQueryWorkloadOnly | src/kepler_client/client.py:147-154 | with only a workload, the selector holds just the pod-name regex |
| Queries.ContainerQueryBoth | src/kepler_client/client.py:147-154 | with both, the selector is `base{namespace filter,workload regex}` in that order |
| Queries.NamespacedAgreesWithContainerQuery | src/kepler_client/client.py:211-214 | the all-metrics namespace filter for the total metric equals the container query without a workload |
| QueryClient.PrometheusQuery | src/kepler_client/client.py:99-113 | a truthy time range makes a range query over the parsed minutes, or a failure when parsing raises; otherwise an instant query |
| QueryClient.MalformedRangeFails | src/kepler_client/client.py:99-107 | a time range the parser rejects fails the request whatever the backend holds |
| QueryClient.OneHourWindow | src/kepler_client/client.py:99-113 | the range `"1h"` becomes a 60-minute range query |
| ContainerRecords.KeyOf | src/kepler_client/client.py:224-228 | the container key: container name, pod name and namespace labels, each "unknown" when missing (partnered by the Key* lemmas) |
| ContainerRecords.KeyIgnoresOtherLabels | src/kepler_client/client.py:224-228 | two label sets that agree on the three key labels have the same key |
| ContainerRecords.KeyIgnoresLabel | src/kepler_client/client.py:224-228 | adding or changing a non-key label does not change the key |
| ContainerRecords.KeyOfEmpty | src/kepler_client/client.py:224-228 | an empty label set is the all-"unknown" key, and spelling "unknown" out gives the same key |
| ContainerRecords.KeyFields | src/kepler_client/client.py:224-228 | each key field is its label, or "unknown" when that label is missing |
| ContainerMetrics.RecordOf | src/kepler_client/client.py:169-181 | the record of one series: names and node from its labels, power and timestamp from the last element of `values` |
| ContainerMetrics.RecordsOf | src/kepler_client/client.py:162-182 | the records of a result: one per series with values, in series order (partnered by RecordsOfMatchesWithValues) |
| ContainerMetrics.TotalPower | src/kepler_client/client.py:231 | `sum(c.power_joules for c in containers)`, left to right over exact reals |
| ContainerMetrics.ContainerPowerMetrics | src/kepler_client/client.py:146-189 | the call succeeds iff the range query succeeds and every latest sample has a timestamp and a value; the result is then one record per series with values, in series order |
| ContainerMetrics.WithValuesMembers | src/kepler_client/client.py:163-167 | the kept series are exactly those with values; there are at most as many as series, and exactly as many only if every series has values |
| ContainerMetrics.RecordsOfMatchesWithValues | src/kepler_client/client.py:162-182 | record k is built from the k-th series with values, so there is one record per kept series, in order |
| ContainerMetrics.RecordOfFields | src/kepler_client/client.py:169-181 | a record's power and timestamp are those of the last element of `values`; its labels, key and node name come from the series' labels |
| ContainerMetrics.RecordsOfAppend | src/kepler_client/client.py:162-182 | the records of concatenated results are the concatenated records |
| ContainerMetrics.TotalPowerAppend | src/kepler_client/client.py:231 | the power total of concatenated lists is the sum of their totals |
| ContainerMetrics.TotalPowerIsEntriesPower | src/kepler_client/client.py:231 | the summed power equals the sum over the listed container entries |
| ContainerMetrics.Summarize | src/kepler_client/client.py:231 | "not found" with total 0.0 iff there are no containers; otherwise one entry per container with its name, pod, namespace and power, and a total equal to the entries' sum |
| ContainerMetrics.WorkloadPowerSummary | src/kepler_client/client.py:231 | the summary is built from the workload's one-hour range query and fails exactly when that collection fails |
| ContainerMerge.Shell | src/kepler_client/client.py:230-231 | the record made at a key's first appearance: the key's fields, node name, timestamp and labels of this series, power 0.0, no component set |
| ContainerMerge.SetComponent | src/kepler_client/client.py:231 | `setattr(record, f"{metric_type}_power_joules", v)`: one component field set |
| ContainerMerge.Step | src/kepler_client/client.py:223-231 | one series of the inner loop: skipped without a sample; otherwise a new key gets a shell appended to the order, and then the metric's field is set (partnered by StepExisting, StepNew, FoldRecords and FoldOrder) |
| ContainerMerge.PyTake | src/kepler_client/client.py:231 | `[:limit]` keeps the first min(limit, n) records, and for a negative limit drops that many from the end |
| ContainerMerge.Fold | src/kepler_client/client.py:207-231 | the merged state keeps each key once, and its map and key order hold the same keys |
| ContainerMerge.MergeSeries | src/kepler_client/client.py:223-231 | one series is one merge step: nothing happens without a sample, a new key appends a shell, and then the metric's field is set |
| ContainerMerge.MergeQueryResult | src/kepler_client/client.py:219-231 | the inner loop leaves the state that merging all series of the query's result gives |
| ContainerMerge.AllContainerMetrics | src/kepler_client/client.py:199-231 | the call fails iff any of the five queries fails; otherwise it returns the records of the merge of all five results in dict order, cut to `limit` |
| ContainerMerge.FirstWith | src/kepler_client/client.py:223-231 | the first series found for a key has a sample and carries that key |
| ContainerMerge.LastValueNeedsFirst | src/kepler_client/client.py:223-231 | a key with a value for some metric has a first sample |
| ContainerMerge.FoldDomain | src/kepler_client/client.py:223-231 | the merged keys are exactly the keys of series with a sample |
| ContainerMerge.FoldRecords | src/kepler_client/client.py:223-231 | each merged record has its key's fields, node name, timestamp and labels from the key's first sample, power 0.0, and each `{type}_power_joules` set iff a sample of that type exists, to the last such sample's value |
| ContainerMerge.DedupFirstAppearance | src/kepler_client/client.py:207-231 | first-appearance order keeps each key once, loses none, and orders keys by first occurrence |
| ContainerMerge.FoldOrder | src/kepler_client/client.py:207-231 | the dict's key order is the first-appearance order of the sampled keys |
| ContainerMerge.RecordsFollowOrder | src/kepler_client/client.py:231 | the i-th record of `list(containers_map.values())` is the record of the i-th key |
| ContainerMerge.MergedRecordsDescribed | src/kepler_client/client.py:223-231 | every returned record is the one its key's samples describe |
| ContainerMerge.MergedRecordsOrder | src/kepler_client/client.py:209-231 | exactly one record per distinct sampled key, ordered by each key's first appearance across the queries in dict order |
| ContainerMerge.StepExisting | src/kepler_client/client.py:230-231 | a sample for an existing key sets only that metric's field; no other key, field, component or the order changes |
| ContainerMerge.StepNew | src/kepler_client/client.py:230-231 | a sample for a new key appends it to the order, with a record made from this sample that holds only this metric's field |
| ContainerMerge.EmptyResults | src/kepler_client/client.py:207-231 | five successful empty results give an empty list, not a failure |
| NodeMetrics.NodeOf | src/kepler_client/client.py:231 | the node record of one platform series: instance ("unknown" when missing), value, timestamp and labels |
| NodeMetrics.NodesOf | src/kepler_client/client.py:231 | the node list: one record per platform series with a sample, in series order (partnered by NodesOfMatchesSampled) |
| NodeMetrics.NodesOfMatchesSampled | src/kepler_client/client.py:231 | node record k is built from the k-th platform series with a sample, taking its instance, value, timestamp and labels |
| NodeMetrics.NodeIndex | src/kepler_client/client.py:231 | `node_map` holds every node name and maps it to the position of the last node with that name |
| NodeMetrics.NodeIndexLast | src/kepler_client/client.py:231 | the map points a node's name at that node iff no later node has the same name |
| NodeMetrics.LastTargetingSpec | src/kepler_client/client.py:231 | a component reading exists iff some sampled series names the node, and it is the value of the last such series |
| NodeMetrics.ApplyResultAt | src/kepler_client/client.py:231 | after one component's result, a node is set to the last value about its name when the map points at it, and is otherwise unchanged |
| NodeMetrics.ApplyResult | src/kepler_client/client.py:231 | one component's result: each sampled series whose instance is in the map sets that component on the node the map points at; the list keeps its length (partnered by ApplyResultAt) |
| NodeMetrics.Enrich | src/kepler_client/client.py:231 | the first k component passes in dict order, a failed query leaving the nodes as they were; the list keeps its length (partnered by EnrichAt and EnrichKeepsFields) |
| NodeMetrics.Enriched | src/kepler_client/client.py:231 | the nodes after `_enrich_node_metrics`: all four passes, with the map built from the nodes themselves (partnered by EnrichedNode) |
| NodeMetrics.EnrichKeepsFields | src/kepler_client/client.py:231 | enrichment changes no field of a node except its components |
| NodeMetrics.EnrichAt | src/kepler_client/client.py:231 | after the first k components, each component holds its reading when the node is the one the map points at, and its old value otherwise |
| NodeMetrics.EnrichedNode | src/kepler_client/client.py:231 | enrichment keeps the number, order, names, platform values, timestamps and labels of the nodes. A component is set to its query's reading exactly when the node is the last of its name and the query succeeded with a sample about it; a failing query leaves that component alone and leaves the other components' updates intact |
| NodeMetrics.EnrichSkipsShadowedNode | src/kepler_client/client.py:231 | a node followed by another of the same name is returned unchanged |
| NodeMetrics.EnrichComponent | src/kepler_client/client.py:231 | the loop over one component's result computes that component's updates |
| NodeMetrics.EnrichNodeMetrics | src/kepler_client/client.py:231 | the four component passes in dict order, each failure skipped, produce the enriched nodes |
| NodeMetrics.NodePowerMetrics | src/kepler_client/client.py:231 | the call fails iff the platform query fails; otherwise it returns the enriched records of the sampled platform series |
| Health.HealthCheck | src/kepler_client/client.py:62-92 | healthy iff both flags hold; the error form appears iff the probe raised or the data query failed, and then both flags are false |
| Health.HealthyIff | src/kepler_client/client.py:70-80 | healthy iff the probe answered 200 and the `up{job=~"kepler.*"}` query returned at least one series |
| Health.HealthFlags | src/kepler_client/client.py:70-80 | without an exception, `prometheus` reports a 200 probe and `kepler` a non-empty result, and no error is set |
| Health.ProbeFailureIgnoresBackend | src/kepler_client/client.py:84-92 | a raised probe gives the all-false, unhealthy error report whatever the backend holds |

## Left out

- Network and session handling: `_ensure_session`, `close`, the async context manager, and the HTTP round trips of `_prometheus_query` and `health_check`. The backend and the probe's status are inputs.
- Asynchrony and concurrency: the queries run one after another in dict order.
- The wall clock: `datetime.utcnow()`, the absolute start and end of a range query, the `step` parameter and the report timestamps. A range query carries only its duration.
- `datetime.fromtimestamp` and its range errors: a timestamp is kept as the real it was given.
- The OverflowError of `end_time - duration` in a range query: a parsed duration that moves the window's start before year 1 or after year 9999 (such as `"1000000d"`) raises in the source, but it depends on the clock, so the model sends every duration that timedelta holds as a range query.
- Float parsing and float arithmetic: samples are already-parsed reals, so a `float()` that raises is not modelled. In particular, the case where it raises part-way through one enrichment pass is not modelled. Sums are exact sums of reals.
- `int()` on non-ASCII digits and whitespace, and CPython's limit on the length of digit strings.
- The exception text of the health report's `error` field: the model records only that the error form was taken.
- The record classes themselves, whose definitions are not part of this model: each record keeps the `{name}_power_joules` fields set so far in a map, and says nothing about class defaults.
- Records are shared objects in Python and values here. Writes through `containers_map` and `node_map` are modelled as updates at a key or at a list position, so aliasing beyond that is not modelled.
- The cost calculator, the FastAPI routes of `src/main.py`, the Go health server and the package re-exports.
- Logging.
