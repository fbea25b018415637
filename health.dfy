/**
 * `KeplerClient.health_check`: a liveness probe of Prometheus and a data-presence query
 * for Kepler's scrape targets, folded into one report that never raises.
 */
module Health {
  import opened Wrappers
  import opened Prometheus
  import opened Queries

  datatype Status = Healthy | Unhealthy

  /**
   * The report dict without its timestamp.  `error` says whether the report came from
   * the exception handler (which also carries the exception's text, not modelled).
   */
  datatype HealthReport = HealthReport(prometheus: bool, kepler: bool, status: Status, error: bool)

  /**
   * `probe` is the HTTP status of `GET /-/healthy`, or None where that request raised;
   * the data-presence query goes to the backend as an instant query.
   */
  function HealthCheck(probe: Option<int>, backend: Backend): (h: HealthReport)
    ensures h.status == Healthy <==> h.prometheus && h.kepler
    ensures h.error <==> probe.None? || backend(Instant(KeplerUp)).Failure?
    ensures h.error ==> !h.prometheus && !h.kepler
  {
    var resp := backend(Instant(KeplerUp));
    if probe.None? || resp.Failure? then HealthReport(false, false, Unhealthy, true)
    else
      var prometheus := probe.value == 200;
      var kepler := |resp.result| > 0;
      HealthReport(prometheus, kepler, if prometheus && kepler then Healthy else Unhealthy, false)
  }

  /** Healthy exactly when the probe answered 200 and the query found at least one target. */
  lemma HealthyIff(probe: Option<int>, backend: Backend)
    ensures HealthCheck(probe, backend).status == Healthy
        <==> probe == Some(200) && backend(Instant(KeplerUp)).Success?
             && |backend(Instant(KeplerUp)).result| > 0
  {
  }

  /**
   * Without an exception, each flag reports its own check: a running Prometheus without
   * any Kepler target is reported as such, and unhealthy.
   */
  lemma HealthFlags(probe: int, backend: Backend)
    requires backend(Instant(KeplerUp)).Success?
    ensures HealthCheck(Some(probe), backend).prometheus <==> probe == 200
    ensures HealthCheck(Some(probe), backend).kepler <==> |backend(Instant(KeplerUp)).result| > 0
    ensures !HealthCheck(Some(probe), backend).error
  {
  }

  /** A raised probe hides the query's answer: the report is the same for every backend. */
  lemma ProbeFailureIgnoresBackend(a: Backend, b: Backend)
    ensures HealthCheck(None, a) == HealthCheck(None, b) == HealthReport(false, false, Unhealthy, true)
  {
  }
}
