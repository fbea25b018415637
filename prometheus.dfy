/**
 * The Prometheus HTTP API as the client sees it.  Every answer of the backend is an
 * input of the model: a `Backend` maps a query to the response Prometheus would give,
 * so the query strings the client builds decide which answer it reads.
 */
module Prometheus {
  import opened Wrappers

  /** A series' `metric` object: label name to label value. */
  type Labels = map<string, string>

  /**
   * One element of `data.result`.  `value` is the instant-query pair `[ts, v]` and
   * `values` the range-query list of such pairs; a key missing from the JSON object
   * reads as the empty list (`series.get("value", [])`).  Each entry is the number
   * Python's `float(...)` would produce from it, so timestamps and values are reals.
   */
  datatype Series = Series(metric: Labels, value: seq<real>, values: seq<seq<real>>)

  /**
   * The outcome of `_prometheus_query`: it raised (transport failure, a non-2xx status,
   * a body that is not JSON), or it returned a body whose `data.result` list (empty
   * when `data` or `result` is missing) is `result`.
   */
  datatype Response = Failure | Success(result: seq<Series>)

  /** An instant query (`/api/v1/query`) or a range query over the last `minutes`. */
  datatype Query = Instant(expr: string) | Range(expr: string, minutes: int)

  /** The backend at the moment of the request. */
  type Backend = Query -> Response

  /** `labels.get(name, "unknown")`. */
  function LabelOr(labels: Labels, name: string): (v: string)
    ensures name in labels ==> v == labels[name]
    ensures name !in labels ==> v == "unknown"
  {
    if name in labels then labels[name] else "unknown"
  }

  /** `value_data and len(value_data) > 1`: an instant sample that has both ts and value. */
  predicate HasSample(s: Series) {
    |s.value| > 1
  }

  /** The series of `ss` that `keep` accepts, in their order (a `for ... if` filter). */
  function Filter(keep: Series -> bool, ss: seq<Series>): seq<Series> {
    if ss == [] then [] else (if keep(ss[0]) then [ss[0]] else []) + Filter(keep, ss[1..])
  }

  lemma {:induction false} FilterSnoc(keep: Series -> bool, ss: seq<Series>, s: Series)
    ensures Filter(keep, ss + [s]) == Filter(keep, ss) + (if keep(s) then [s] else [])
    decreases |ss|
  {
    var last := if keep(s) then [s] else [];
    if ss == [] {
      assert [s][1..] == [];
      assert Filter(keep, [s]) == last + Filter(keep, []);
    } else {
      var head := if keep(ss[0]) then [ss[0]] else [];
      assert (ss + [s])[0] == ss[0];
      assert (ss + [s])[1..] == ss[1..] + [s];
      FilterSnoc(keep, ss[1..], s);
      calc {
        Filter(keep, ss + [s]);
        head + Filter(keep, ss[1..] + [s]);
        head + (Filter(keep, ss[1..]) + last);
        (head + Filter(keep, ss[1..])) + last;
        Filter(keep, ss) + last;
      }
    }
  }
}
