// The pool as the program keeps it (router/types.go): objects updated in place, each method tied to
// the functions of PoolSpec.
module PoolImpl {
  import opened GoTypes
  import opened Probes
  import opened Hysteresis
  import opened Sampler
  import opened Endpoints
  import opened PoolSpec
  import opened PoolRuns
  import opened Degraded
  import opened Config

  /** An immutable copy of one endpoint's state, for exporters. */
  datatype EndpointState = EndpointState(
    name: string,
    url: string,
    healthy: bool,
    slot: uint64,
    slotLag: uint64,
    ewmaLatency: Duration,
    latencyMS: real,
    lastError: Error)

  /** time.Millisecond. */
  const NANOSECONDS_PER_MS := 1000000.0

  function SnapshotOf(maxSlot: uint64, name: string, url: string, h: Health): EndpointState {
    EndpointState(name, url, h.healthy, h.slot, Lag(maxSlot, h), h.ewma, h.ewma as real / NANOSECONDS_PER_MS,
                  if h.lastErr.Some? then h.lastErr.value else "")
  }

  /** The band at this latency is five fourths of it, with the fraction dropped. */
  ghost predicate FiveFourths(g: Band, lo: int) {
    4 * g(lo) <= 5 * lo < 4 * g(lo) + 4
  }

  /** The endpoints a list of results names. */
  ghost function Touched(results: seq<ProbeResult>): set<Endpoint> {
    set r | r in results && r.endpoint != null :: r.endpoint
  }

  class Pool {
    const endpoints: seq<Endpoint>
    const params: Params
    var maxSlot: uint64

    // Every batch applied so far.
    ghost var batches: seq<Batch>

    /** The abstract state. */
    function View(): PoolState
      requires NoneTwice(endpoints)
      reads this, endpoints
    {
      State(endpoints, map e | e in endpoints :: e.State(), maxSlot)
    }

    /** The state every method keeps: the result of the batches applied to a new pool. */
    ghost predicate Valid()
      reads this, endpoints
    {
      && NoneTwice(endpoints)
      && Reached(params, Fresh(), batches, View())
    }

    ghost function Fresh(): (r: PoolState)
      requires NoneTwice(endpoints)
      ensures New(r)
    {
      State(endpoints, map e | e in endpoints :: FRESH, 0)
    }

    /** What the fields mean: every object is where its own history of results leads, so its health flag
        says what that history calls for, and a positive maximum over live endpoints is the watermark. */
    lemma Meaning()
      requires Valid()
      ensures forall e | e in endpoints :: e.State() == Replay(params, FRESH, History(batches, e))
      ensures forall e | e in endpoints :: e.healthy <==> Cleared(params, History(batches, e))
      ensures forall e | e in endpoints :: LatestSlot(History(batches, e), e.slot)
      ensures HeadIsWatermark(View())
    {
      forall e | e in endpoints
        ensures e.State() == Replay(params, FRESH, History(batches, e))
        ensures e.healthy <==> Cleared(params, History(batches, e))
        ensures LatestSlot(History(batches, e), e.slot)
      {
        SlotIsLatest(params, History(batches, e));
        assert View().health[e] == e.State();
        RunReplays(params, Fresh(), batches, e);
        HealthyMeansCleared(params, History(batches, e));
      }
      RunHeadIsWatermark(params, Fresh(), batches);
    }

    constructor (endpoints: seq<Endpoint>, params: Params)
      requires NoneTwice(endpoints)
      requires forall e | e in endpoints :: e.State() == FRESH
      ensures Valid() && batches == []
      ensures this.endpoints == endpoints && this.params == params
      ensures View() == Fresh()
    {
      this.endpoints, this.params := endpoints, params;
      maxSlot, batches := 0, [];
    }

    /** NewPool: one endpoint object per configured endpoint, all healthy; no endpoints is an error. */
    static method NewPool(configs: seq<EndpointConfig>, params: Params) returns (r: Result<Pool, Error>)
      ensures r.Err? <==> configs == []
      ensures r.Ok? ==>
              && fresh(r.value) && fresh(set e | e in r.value.endpoints)
              && r.value.Valid() && r.value.batches == [] && r.value.params == params
              && |r.value.endpoints| == |configs|
              && forall k | 0 <= k < |configs| ::
                   var e := r.value.endpoints[k];
                   EndpointConfig(e.url, e.name, e.weight) == configs[k]
    {
      if configs == [] {
        return Err("router: pool requires at least one endpoint");
      }
      var eps: seq<Endpoint> := [];
      for k := 0 to |configs|
        invariant |eps| == k && fresh(set e | e in eps)
        invariant NoneTwice(eps)
        invariant forall i | 0 <= i < k :: eps[i].State() == FRESH
        invariant forall i | 0 <= i < k :: EndpointConfig(eps[i].url, eps[i].name, eps[i].weight) == configs[i]
      {
        var e := new Endpoint(configs[k].url, configs[k].name, configs[k].weight);
        eps := eps + [e];
      }
      var pool := new Pool(eps, params);
      return Ok(pool);
    }

    /** The effect of one result on the endpoint it names, which need not belong to this pool. */
    method RecordProbeLocked(r: ProbeResult)
      modifies r.endpoint
      ensures r.endpoint != null ==>
              && r.endpoint.State() == Record(params, old(r.endpoint.State()), r.Outcome())
              && Took(params, old(r.endpoint.State()), r.slot, r.latency, r.err, r.endpoint.State())
    {
      var ep := r.endpoint;
      if ep != null {
        RecordTook(params, ep.State(), r.slot, r.latency, r.err);
      }
      if ep == null {
        return;
      }
      if r.err.Some? {
        ep.lastErr := r.err;
        ep.consecOKs := 0;
        ep.consecFails := ep.consecFails + 1;
        if ep.consecFails >= params.failThresh {
          ep.healthy := false;
        }
        return;
      }
      ep.lastErr := None;
      ep.consecFails := 0;
      ep.consecOKs := ep.consecOKs + 1;
      if !ep.healthy && ep.consecOKs >= params.okThresh {
        ep.healthy := true;
      }
      ep.slot := r.slot;
      if ep.ewmaLatency == 0 {
        ep.ewmaLatency := r.latency;
      } else {
        BlendWithin(params.alpha, ep.ewmaLatency, r.latency);
        ep.ewmaLatency := Truncate(Blend(params.alpha, ep.ewmaLatency as real, r.latency as real));
      }
    }

    /** The new watermark is the head, unless no live endpoint has a slot. */
    method RecomputeMaxSlotLocked()
      requires NoneTwice(endpoints)
      modifies `maxSlot
      ensures View() == Recomputed(old(View()))
    {
      ghost var health := View().health;
      var max: uint64 := 0;
      for k := 0 to |endpoints|
        invariant max == LiveMax(endpoints[..k], health)
      {
        assert endpoints[..k + 1][..k] == endpoints[..k];
        var ep := endpoints[k];
        if !ep.healthy || ep.lastErr.Some? {
          continue;
        }
        if ep.slot > max {
          max := ep.slot;
        }
      }
      assert endpoints[..|endpoints|] == endpoints;
      if max > 0 {
        maxSlot := max;
      }
      assert View().health == health;
    }

    /** The results in order; every endpoint replays those that name it. */
    method RecordAllLocked(results: seq<ProbeResult>)
      requires NoneTwice(endpoints)
      modifies Touched(results)
      ensures View() == Replayed(params, old(View()), results)
      ensures forall e | e in endpoints || e in Touched(results) ::
                e.State() == Replay(params, old(e.State()), Project(results, e))
    {
      for k := 0 to |results|
        invariant forall e | e in endpoints || e in Touched(results) ::
                    e.State() == Replay(params, old(e.State()), Project(results[..k], e))
      {
        var r := results[k];
        assert r in results && results[..k + 1][..k] == results[..k];
        label before:
        RecordProbeLocked(r);
        forall e | e in endpoints || e in Touched(results)
          ensures e.State() == Replay(params, old(e.State()), Project(results[..k + 1], e))
        {
          if e == r.endpoint {
            ReplaySnoc(params, old(e.State()), Project(results[..k], e), r.Outcome());
          } else {
            assert Project(results[..k + 1], e) == Project(results[..k], e);
            assert e.State() == old@before(e.State());
          }
        }
      }
      assert results[..|results|] == results;
      assert View().health == Replayed(params, old(View()), results).health;
    }

    /** A full cycle in one step, then the watermark. */
    method ApplyProbes(results: seq<ProbeResult>)
      requires Valid()
      modifies this, Touched(results)
      ensures Valid() && batches == old(batches) + [results]
      ensures View() == ApplyBatch(params, old(View()), results)
    {
      RecordAllLocked(results);
      RecomputeMaxSlotLocked();
      ReachedNext(params, Fresh(), batches, old(View()), results);
      batches := batches + [results];
    }

    /** A single result: a batch of one. */
    method RecordProbe(r: ProbeResult)
      requires Valid()
      modifies this, r.endpoint
      ensures Valid() && batches == old(batches) + [[r]]
      ensures View() == ApplyBatch(params, old(View()), [r])
    {
      RecordProbeLocked(r);
      OneReplayed(params, old(View()), View(), r);
      RecomputeMaxSlotLocked();
      ReachedNext(params, Fresh(), batches, old(View()), [r]);
      batches := batches + [[r]];
    }

    lemma WholeMeansSteady()
      requires Valid() && WholeCycles(endpoints, batches)
      ensures Steady(params, View())
    {
      NewIsSteady(params, Fresh());
      SteadyRun(params, Fresh(), batches);
    }

    /** The first selection of a request, for a pool with this history. */
    lemma SelectMeaning(g: Band, d: Draw)
      requires Valid()
      ensures PoolSpec.Select(params, g, View(), null, d).NoEndpoints? <==> AllEjected(params, endpoints, batches)
      ensures WholeCycles(endpoints, batches) ==> !IsDegraded(params, g, View(), d)
    {
      SelectFailsWhenAllEjected(params, g, Fresh(), batches, d);
      if WholeCycles(endpoints, batches) {
        WholeMeansSteady();
        SteadyIsCurrent(params, g, View(), d);
      }
    }

    /** Select: fails exactly if every endpoint's history calls for its ejection, and never falls back to
        a lagging endpoint if only whole cycles were applied. */
    method Select(g: Band, d: Draw) returns (r: Selection)
      requires Valid()
      ensures r == PoolSpec.Select(params, g, View(), null, d)
      ensures r.NoEndpoints? <==> AllEjected(params, endpoints, batches)
      ensures WholeCycles(endpoints, batches) ==> r.NoEndpoints? || !r.degraded
    {
      SelectMeaning(g, d);
      r := SelectExcluding(g, null, d);
    }

    /** SelectExcluding: reads the pool, changes nothing, and answers what the specification does: a healthy
        endpoint other than the excluded one, as degraded exactly if its slot is too far behind the watermark,
        and so only if that is true of every such endpoint. */
    method SelectExcluding(g: Band, exclude: Endpoint?, d: Draw) returns (r: Selection)
      requires NoneTwice(endpoints)
      ensures r == PoolSpec.Select(params, g, View(), exclude, d)
      ensures Answers(exclude, r)
    {
      AnswersRightly(g, exclude, d);
      var current, lagging := SplitCandidates(exclude);
      if |current| > 0 {
        var best := PickBest(g, current, d);
        return Selected(best, false);
      }
      if |lagging| > 0 {
        var best := PickBest(g, lagging, d);
        return Selected(best, true);
      }
      return NoEndpoints;
    }

    /** In slots, as they are reported. */
    ghost predicate TooFarBehind(e: Endpoint)
      reads this, e
    {
      0 < e.slot && e.slot + params.maxSlotLag < maxSlot
    }

    ghost predicate Answers(exclude: Endpoint?, r: Selection)
      reads this, endpoints
    {
      match r
      case NoEndpoints => forall o | o in endpoints && o.healthy :: o == exclude
      case Selected(e, degraded) =>
        && e in endpoints && e.healthy && e != exclude
        && (degraded <==> TooFarBehind(e))
        && (degraded <==> forall o | o in endpoints && o.healthy && o != exclude :: TooFarBehind(o))
    }

    lemma AnswersRightly(g: Band, exclude: Endpoint?, d: Draw)
      requires NoneTwice(endpoints)
      ensures Answers(exclude, PoolSpec.Select(params, g, View(), exclude, d))
    {
      PoolSpec.SelectMeaning(params, g, View(), exclude, d);
      forall o | o in endpoints
        ensures Behind(params, View(), o) <==> TooFarBehind(o)
        ensures View().health[o].healthy == o.healthy
      {
        assert View().health[o] == o.State();
      }
    }

    /** Its loop: the eligible endpoints that are current, and those that are not. */
    method SplitCandidates(exclude: Endpoint?) returns (current: seq<Endpoint>, lagging: seq<Endpoint>)
      requires NoneTwice(endpoints)
      ensures SplitAt(params, View(), exclude, |endpoints|, current, lagging)
    {
      ghost var s := View();
      current, lagging := [], [];
      for k := 0 to |endpoints|
        invariant SplitAt(params, s, exclude, k, current, lagging)
      {
        var ep := endpoints[k];
        assert s.health[ep] == ep.State();
        SplitNext(params, s, exclude, k, current, lagging);
        if ep == exclude || !ep.healthy {
          continue;
        }
        if Lag(maxSlot, ep.State()) <= params.maxSlotLag {
          current := current + [ep];
        } else {
          lagging := lagging + [ep];
        }
      }
    }

    method PickBest(g: Band, candidates: seq<Endpoint>, d: Draw) returns (r: Endpoint)
      requires candidates != []
      requires NoneTwice(endpoints) && forall e | e in candidates :: e in endpoints
      ensures r == candidates[Pick(g, Latencies(View(), candidates), d)]
    {
      ghost var lat := Latencies(View(), candidates);
      var n := |candidates|;
      if n == 1 {
        return candidates[0];
      }
      if n == 2 {
        assert candidates[0] in candidates && candidates[1] in candidates;
        r := Faster(g, candidates[0], candidates[1], d.coin);
        return;
      }
      var i := IntN(d.i, n);
      var j := IntN(d.j, n - 1);
      if j >= i {
        j := j + 1;
      }
      assert candidates[i] in candidates && candidates[j] in candidates;
      r := Faster(g, candidates[i], candidates[j], d.coin);
    }

    /** The better of two endpoints, or either one when they are within the band of each other. */
    static method Faster(g: Band, a: Endpoint, b: Endpoint, coin: bool) returns (r: Endpoint)
      ensures r == if FirstIsFaster(g, Effective(a.ewmaLatency), Effective(b.ewmaLatency), coin) then a else b
      ensures a.ewmaLatency > 0 && FiveFourths(g, a.ewmaLatency) && b.ewmaLatency > 0 && FiveFourths(g, b.ewmaLatency)
              ==>
              && (5 * a.ewmaLatency < 4 * b.ewmaLatency ==> r == a)
              && (5 * b.ewmaLatency < 4 * a.ewmaLatency ==> r == b)
              && (5 * a.ewmaLatency >= 4 * b.ewmaLatency && 5 * b.ewmaLatency >= 4 * a.ewmaLatency ==>
                    r == if coin then a else b)
    {
      var la, lb := Effective(a.ewmaLatency), Effective(b.ewmaLatency);
      if la != lb {
        var lo, hi := la, lb;
        if lb < la {
          lo, hi := lb, la;
        }
        if hi > g(lo) {
          if la < lb {
            return a;
          }
          return b;
        }
      }
      return if coin then a else b;
    }

    /** An entry against the endpoint it is about. */
    ghost predicate Shows(st: EndpointState, e: Endpoint)
      reads this, e
    {
      && st.name == e.name && st.url == e.url
      && st.healthy == e.healthy && st.slot == e.slot
      && (if 0 < e.slot <= maxSlot then e.slot + st.slotLag == maxSlot else st.slotLag == 0)
      && st.ewmaLatency == e.ewmaLatency && st.latencyMS * 1000000.0 == e.ewmaLatency as real
      && (e.lastErr == Some(st.lastError) || (e.lastErr == None && st.lastError == ""))
    }

    /** Values, not references: one entry per endpoint, in order. */
    method Snapshot() returns (out: seq<EndpointState>)
      requires NoneTwice(endpoints)
      ensures |out| == |endpoints|
      ensures forall k | 0 <= k < |out| ::
                out[k] == SnapshotOf(maxSlot, endpoints[k].name, endpoints[k].url, View().health[endpoints[k]])
      ensures forall k | 0 <= k < |out| :: Shows(out[k], endpoints[k])
    {
      out := [];
      for k := 0 to |endpoints|
        invariant |out| == k
        invariant forall i | 0 <= i < k ::
                    out[i] == SnapshotOf(maxSlot, endpoints[i].name, endpoints[i].url, endpoints[i].State())
      {
        var ep := endpoints[k];
        var lastError := "";
        if ep.lastErr.Some? {
          lastError := ep.lastErr.value;
        }
        out := out + [EndpointState(ep.name, ep.url, ep.healthy, ep.slot, Lag(maxSlot, ep.State()), ep.ewmaLatency,
                                    ep.ewmaLatency as real / NANOSECONDS_PER_MS, lastError)];
      }
    }
  }
}
