// The upstream endpoints and the observations made of them (router/types.go:38-73).
module Endpoints {
  import opened GoTypes
  import opened Probes

  /** Identity matters: a retry excludes an endpoint by reference, not by URL. */
  class Endpoint {
    const url: string
    const name: string
    const weight: int

    var healthy: bool
    var slot: uint64
    var ewmaLatency: Duration
    var consecFails: nat
    var consecOKs: nat
    var lastErr: Option<Error>

    function State(): Health
      reads this
    {
      Health(healthy, slot, ewmaLatency, consecFails, consecOKs, lastErr)
    }

    constructor (url: string, name: string, weight: int)
      ensures this.url == url && this.name == name && this.weight == weight
      ensures State() == FRESH
    {
      this.url, this.name, this.weight := url, name, weight;
      healthy, slot, ewmaLatency, consecFails, consecOKs, lastErr := true, 0, 0, 0, 0, None;
    }
  }

  /** One health-check observation; a nil endpoint is allowed and ignored. */
  datatype ProbeResult = ProbeResult(endpoint: Endpoint?, slot: uint64, latency: Duration, err: Option<Error>) {
    function Outcome(): Outcome {
      if err.Some? then Failure(err.value) else Success(slot, latency)
    }
  }

  /** What a list of results says about one endpoint, in order. */
  function Project(results: seq<ProbeResult>, e: Endpoint): seq<Outcome> {
    if results == [] then []
    else
      var r := results[|results| - 1];
      Project(results[..|results| - 1], e) + if r.endpoint == e then [r.Outcome()] else []
  }

  lemma {:induction false} ProjectConcat(a: seq<ProbeResult>, b: seq<ProbeResult>, e: Endpoint)
    ensures Project(a + b, e) == Project(a, e) + Project(b, e)
  {
    if b == [] {
      assert a + b == a;
    } else {
      ProjectConcat(a, b[..|b| - 1], e);
      assert (a + b)[..|a + b| - 1] == a + b[..|b| - 1];
    }
  }

  lemma {:induction false} ProjectOrigin(results: seq<ProbeResult>, e: Endpoint, k: nat)
    requires k < |Project(results, e)|
    ensures exists r :: r in results && r.endpoint == e && r.Outcome() == Project(results, e)[k]
  {
    var n := |results| - 1;
    if k < |Project(results[..n], e)| {
      ProjectOrigin(results[..n], e, k);
    } else {
      assert results[n] in results;
    }
  }
}
