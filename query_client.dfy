/**
 * `KeplerClient._prometheus_query` without the HTTP round trip: a time range turns the
 * request into a range query over the parsed duration, and a token the parser rejects
 * raises before the request is made.  The window's start is `now - duration`, which
 * depends on the clock; the model sends every parsed duration as it is, so a duration
 * that carries the start outside datetime's years is not a failure here.
 */
module QueryClient {
  import opened Wrappers
  import opened Prometheus
  import opened TimeRange

  function PrometheusQuery(backend: Backend, query: string, timeRange: Option<string>): Response {
    if timeRange.Some? && timeRange.value != "" then
      match ParseTimeRange(timeRange.value)
      case Fail => Failure
      case Ok(m) => backend(Range(query, m))
    else backend(Instant(query))
  }

  /** A token the parser rejects fails the request whatever the backend would answer. */
  lemma MalformedRangeFails(backend: Backend, query: string, token: string)
    requires ParseTimeRange(token) == Fail
    ensures PrometheusQuery(backend, query, Some(token)) == Failure
  {
  }

  /** The one-hour window of the workload summary is a 60-minute range query. */
  lemma OneHourWindow(backend: Backend, query: string)
    ensures PrometheusQuery(backend, query, Some("1h")) == backend(Range(query, 60))
  {
    assert DigitChar(1) == '1';
    assert Decimal(1) == "1";
    ParseHours(1);
    assert Decimal(1) + "h" == "1h";
  }
}
