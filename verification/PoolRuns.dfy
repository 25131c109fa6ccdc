// The pool over whole runs: any sequence of batches applied to a new pool.
module PoolRuns {
  import opened GoTypes
  import opened Probes
  import opened Hysteresis
  import opened Ewma
  import opened Sampler
  import opened Endpoints
  import opened PoolSpec

  type Batch = seq<ProbeResult>

  /** The pool NewPool returns. */
  ghost predicate New(s: PoolState) {
    && s.maxSlot == 0
    && forall e | e in s.members :: s.health[e] == FRESH
  }

  function Run(p: Params, s: PoolState, bs: seq<Batch>): (r: PoolState)
    ensures r.members == s.members
  {
    if bs == [] then s else ApplyBatch(p, Run(p, s, bs[..|bs| - 1]), bs[|bs| - 1])
  }

  /** All the results of a run, one after the other. */
  function Flatten(bs: seq<Batch>): seq<ProbeResult> {
    if bs == [] then [] else Flatten(bs[..|bs| - 1]) + bs[|bs| - 1]
  }

  /** Everything the run observed of one endpoint. */
  function History(bs: seq<Batch>, e: Endpoint): seq<Outcome> {
    Project(Flatten(bs), e)
  }

  /** s is where the batches lead from start. */
  ghost predicate Reached(p: Params, start: PoolState, bs: seq<Batch>, s: PoolState) {
    s == Run(p, start, bs)
  }

  lemma ReachedNext(p: Params, start: PoolState, bs: seq<Batch>, s: PoolState, b: Batch)
    requires Reached(p, start, bs, s)
    ensures Reached(p, start, bs + [b], ApplyBatch(p, s, b))
  {
    RunSnoc(p, start, bs, b);
  }

  lemma RunSnoc(p: Params, s: PoolState, bs: seq<Batch>, b: Batch)
    ensures Run(p, s, bs + [b]) == ApplyBatch(p, Run(p, s, bs), b)
  {
    assert (bs + [b])[..|bs|] == bs;
  }

  lemma ReachedLast(p: Params, start: PoolState, bs: seq<Batch>, s: PoolState) returns (before: PoolState)
    requires bs != [] && Reached(p, start, bs, s)
    ensures Reached(p, start, bs[..|bs| - 1], before) && s == ApplyBatch(p, before, bs[|bs| - 1])
  {
    before := Run(p, start, bs[..|bs| - 1]);
  }

  /** A run can be taken in parts. */
  lemma {:induction false} RunConcat(p: Params, s: PoolState, a: seq<Batch>, m: PoolState, b: seq<Batch>, r: PoolState)
    requires Reached(p, s, a, m) && Reached(p, m, b, r)
    ensures Reached(p, s, a + b, r)
  {
    if b == [] {
      assert a + b == a;
    } else {
      var n := |b| - 1;
      var before := ReachedLast(p, m, b, r);
      RunConcat(p, s, a, m, b[..n], before);
      ReachedNext(p, s, a + b[..n], before, b[n]);
      assert a + b[..n] + [b[n]] == a + b;
    }
  }

  /** Endpoints do not influence each other: each one replays its own history. */
  lemma {:induction false} RunReplays(p: Params, s: PoolState, bs: seq<Batch>, e: Endpoint)
    requires e in s.members
    ensures Run(p, s, bs).health[e] == Replay(p, s.health[e], History(bs, e))
  {
    if bs != [] {
      var n := |bs| - 1;
      RunReplays(p, s, bs[..n], e);
      ProjectConcat(Flatten(bs[..n]), bs[n], e);
      ReplayConcat(p, s.health[e], History(bs[..n], e), Project(bs[n], e));
    }
  }

  // ---- Health over runs ----

  /** Every endpoint's history calls for its ejection. */
  ghost predicate AllEjected(p: Params, members: seq<Endpoint>, bs: seq<Batch>) {
    forall e | e in members :: !Cleared(p, History(bs, e))
  }

  /** A selection fails exactly when every endpoint's history calls for its ejection. */
  lemma SelectFailsWhenAllEjected(p: Params, g: Band, s: PoolState, bs: seq<Batch>, d: Draw)
    requires New(s)
    ensures Select(p, g, Run(p, s, bs), null, d).NoEndpoints? <==> AllEjected(p, s.members, bs)
  {
    var r := Run(p, s, bs);
    SelectSound(p, g, r, null, d);
    forall e | e in s.members ensures Eligible(r, null, e) <==> Cleared(p, History(bs, e)) {
      RunReplays(p, s, bs, e);
      HealthyMeansCleared(p, History(bs, e));
    }
  }

  /** After any run every endpoint has the slot of its latest success. */
  lemma RunSlots(p: Params, s: PoolState, bs: seq<Batch>, e: Endpoint)
    requires New(s) && e in s.members
    ensures LatestSlot(History(bs, e), Run(p, s, bs).health[e].slot)
  {
    RunReplays(p, s, bs, e);
    SlotIsLatest(p, History(bs, e));
  }

  // ---- The watermark ----

  /** What every state between batches satisfies: a positive head is the watermark. */
  predicate HeadIsWatermark(s: PoolState) {
    Head(s) > 0 ==> s.maxSlot == Head(s)
  }

  lemma NewHead(s: PoolState)
    requires New(s)
    ensures Head(s) == 0
  {
    LiveMaxIsMaximum(s.members, s.health);
  }

  lemma RunHeadIsWatermark(p: Params, s: PoolState, bs: seq<Batch>)
    requires New(s) || HeadIsWatermark(s)
    ensures HeadIsWatermark(Run(p, s, bs))
  {
    if bs == [] && New(s) {
      NewHead(s);
    }
  }

  /** The heads of the states after each batch. */
  function Heads(p: Params, s: PoolState, bs: seq<Batch>): (r: seq<uint64>)
    ensures |r| == |bs|
  {
    if bs == [] then [] else Heads(p, s, bs[..|bs| - 1]) + [Head(Run(p, s, bs))]
  }

  lemma {:induction false} HeadsAt(p: Params, s: PoolState, bs: seq<Batch>, k: nat)
    requires k < |bs|
    ensures Heads(p, s, bs)[k] == Head(Run(p, s, bs[..k + 1]))
  {
    if k < |bs| - 1 {
      HeadsAt(p, s, bs[..|bs| - 1], k);
      assert bs[..|bs| - 1][..k + 1] == bs[..k + 1];
    } else {
      assert bs[..k + 1] == bs;
    }
  }

  /** w is the latest positive head, or what it was at the start if there was none. */
  ghost predicate LatestPositive(start: uint64, heads: seq<uint64>, w: uint64) {
    || (w == start && forall k | 0 <= k < |heads| :: heads[k] == 0)
    || exists t :: 0 <= t < |heads| && heads[t] == w && w > 0 && forall k | t < k < |heads| :: heads[k] == 0
  }

  /** Main result: the watermark is the latest positive head of the run, and nothing else is. */
  lemma {:induction false} WatermarkOverRun(p: Params, s: PoolState, bs: seq<Batch>, w: uint64)
    ensures Run(p, s, bs).maxSlot == w <==> LatestPositive(s.maxSlot, Heads(p, s, bs), w)
  {
    if bs != [] {
      var n := |bs| - 1;
      WatermarkOverRun(p, s, bs[..n], w);
      LatestPositiveSnoc(s.maxSlot, Heads(p, s, bs[..n]), Head(Run(p, s, bs)), w);
    }
  }

  lemma LatestPositiveSnoc(start: uint64, heads: seq<uint64>, head: uint64, w: uint64)
    ensures LatestPositive(start, heads + [head], w) <==>
            if head > 0 then w == head else LatestPositive(start, heads, w)
  {
    var all := heads + [head];
    assert all[|heads|] == head;
    if head > 0 {
      if w == head {
        assert all[|heads|] == w;
      }
    } else {
      forall k | 0 <= k < |heads| ensures all[k] == heads[k] {}
      if t :| 0 <= t < |heads| && heads[t] == w && w > 0 && forall k | t < k < |heads| :: heads[k] == 0 {
        assert all[t] == w;
      }
      if t :| 0 <= t < |all| && all[t] == w && w > 0 && forall k | t < k < |all| :: all[k] == 0 {
        assert heads[t] == w;
        forall k | t < k < |heads| ensures heads[k] == 0 {
          assert all[k] == 0;
        }
      }
      if w == start && forall k | 0 <= k < |all| :: all[k] == 0 {
        forall k | 0 <= k < |heads| ensures heads[k] == 0 {
          assert all[k] == 0;
        }
      }
    }
  }

  /** A positive watermark of a pool that started new was reported by some successful probe of a
      member. */
  lemma {:induction false} WatermarkWasReported(p: Params, s: PoolState, bs: seq<Batch>)
    requires New(s) && Run(p, s, bs).maxSlot > 0
    ensures exists r :: r in Flatten(bs) && r.endpoint in s.members && r.err.None?
                        && r.slot == Run(p, s, bs).maxSlot
  {
    var n := |bs| - 1;
    var r := Run(p, s, bs);
    if Head(r) == 0 {
      WatermarkWasReported(p, s, bs[..n]);
    } else {
      LiveMaxIsMaximum(r.members, r.health);
      var e :| e in r.members && LiveSlot(r.health[e]) == Head(r);
      RunReplays(p, s, bs, e);
      SlotWasReported(p, History(bs, e));
      var k :| 0 <= k < |History(bs, e)| && History(bs, e)[k].Success? && History(bs, e)[k].slot == r.health[e].slot;
      ProjectOrigin(Flatten(bs), e, k);
    }
  }

  lemma {:induction false} SlotWasReported(p: Params, h: seq<Outcome>)
    requires Replay(p, FRESH, h).slot > 0
    ensures exists k :: 0 <= k < |h| && h[k].Success? && h[k].slot == Replay(p, FRESH, h).slot
  {
    var n := |h| - 1;
    if h[n].Failure? {
      SlotWasReported(p, h[..n]);
      var k :| 0 <= k < n && h[..n][k].Success? && h[..n][k].slot == Replay(p, FRESH, h[..n]).slot;
      assert h[k] == h[..n][k];
    }
  }

  /** A node whose last probe failed does not hold the watermark once another endpoint is live with a
      slot: the watermark is then the slot of a live endpoint, and so of another one. */
  lemma FailedLeaderStepsDown(p: Params, s: PoolState, b: Batch, dead: Endpoint, other: Endpoint)
    requires dead in s.members && other in s.members
    requires !Live(ApplyBatch(p, s, b).health[dead])
    requires LiveSlot(ApplyBatch(p, s, b).health[other]) > 0
    ensures var r := ApplyBatch(p, s, b);
            exists e :: e in s.members && e != dead && Live(r.health[e]) && r.maxSlot == r.health[e].slot
  {
    var r := ApplyBatch(p, s, b);
    LiveMaxIsMaximum(r.members, r.health);
    var e :| e in r.members && LiveSlot(r.health[e]) == Head(r);
  }

  /** So the watermark is not monotone: two endpoints, and the leader's next probe fails. */
  lemma WatermarkCanFall(p: Params, s: PoolState, e: Endpoint, o: Endpoint, err: Error)
    requires New(s) && e != o && s.members == [e, o]
    ensures var s1 := ApplyBatch(p, s, [ProbeResult(e, 900, 1, None), ProbeResult(o, 800, 1, None)]);
            var s2 := ApplyBatch(p, s1, [ProbeResult(e, 0, 1, Some(err)), ProbeResult(o, 801, 1, None)]);
            s1.maxSlot == 900 && s2.maxSlot == 801
  {
    var s1 := TwoResults(p, s, e, o, ProbeResult(e, 900, 1, None), ProbeResult(o, 800, 1, None));
    HeadOfTwo(s1, e, o);
    var s2 := TwoResults(p, s1, e, o, ProbeResult(e, 0, 1, Some(err)), ProbeResult(o, 801, 1, None));
    HeadOfTwo(s2, e, o);
  }

  lemma TwoResults(p: Params, s: PoolState, e: Endpoint, o: Endpoint, re: ProbeResult, ro: ProbeResult)
    returns (r: PoolState)
    requires e != o && s.members == [e, o] && re.endpoint == e && ro.endpoint == o
    ensures r == ApplyBatch(p, s, [re, ro])
    ensures r.health[e] == Record(p, s.health[e], re.Outcome())
    ensures r.health[o] == Record(p, s.health[o], ro.Outcome())
  {
    r := ApplyBatch(p, s, [re, ro]);
    assert r.health[e] == Record(p, s.health[e], re.Outcome()) by {
      ProjectPair(re, ro, e);
      ReplayOne(p, s.health[e], re.Outcome());
    }
    assert r.health[o] == Record(p, s.health[o], ro.Outcome()) by {
      ProjectPair(re, ro, o);
      ReplayOne(p, s.health[o], ro.Outcome());
    }
  }

  lemma ProjectPair(a: ProbeResult, b: ProbeResult, e: Endpoint)
    requires a.endpoint != b.endpoint
    ensures Project([a, b], e) ==
            if a.endpoint == e then [a.Outcome()] else if b.endpoint == e then [b.Outcome()] else []
  {
    assert [a, b][..1] == [a];
    ProjectOne(a, e);
  }

  lemma ProjectOne(r: ProbeResult, e: Endpoint)
    ensures Project([r], e) == if r.endpoint == e then [r.Outcome()] else []
  {
    assert [r][..0] == [];
  }

  /** A single result touches the endpoint it names and no other. */
  lemma OneReplayed(p: Params, s: PoolState, t: PoolState, r: ProbeResult)
    requires t.members == s.members && t.maxSlot == s.maxSlot
    requires forall e | e in s.members ::
               t.health[e] == if r.endpoint == e then Record(p, s.health[e], r.Outcome()) else s.health[e]
    ensures t == Replayed(p, s, [r])
  {
    var u := Replayed(p, s, [r]);
    forall e | e in s.members ensures t.health[e] == u.health[e] {
      ProjectOne(r, e);
      ReplayOne(p, s.health[e], r.Outcome());
    }
    assert t.health == u.health;
  }

  lemma ReplayOne(p: Params, h: Health, o: Outcome)
    ensures Replay(p, h, [o]) == Record(p, h, o)
  {
    assert [o][..0] == [];
  }

  lemma HeadOfTwo(s: PoolState, e: Endpoint, o: Endpoint)
    requires s.members == [e, o]
    ensures var he, ho := LiveSlot(s.health[e]), LiveSlot(s.health[o]);
            Head(s) == if ho > he then ho else he
  {
    assert s.members[..1] == [e] && [e][..0] == [];
    assert LiveMax([e], s.health) == LiveSlot(s.health[e]);
  }

  // ---- Latencies over runs ----

  /** Every successful probe took between 1 and cap nanoseconds. */
  ghost predicate Measured(bs: seq<Batch>, cap: int) {
    forall r | r in Flatten(bs) && r.err.None? :: 1 <= r.latency <= cap
  }

  /** With a clock that never reports zero and latencies whose product with 5/4 fits, the band never
      overflows in any reachable state, a zero average means no success yet, and an endpoint without
      one never wins a pairing with an endpoint that has one. */
  lemma MeasuredRun(p: Params, s: PoolState, bs: seq<Batch>, cap: Duration, e: Endpoint)
    requires New(s) && e in s.members
    requires Measured(bs, cap) && 5 * cap < 4 * MAX_DURATION
    ensures var l := Run(p, s, bs).health[e].ewma;
            && (l == 0 <==> forall k | 0 <= k < |History(bs, e)| :: History(bs, e)[k].Failure?)
            && 0 <= l < MAX_DURATION && NearTie(l) < MAX_DURATION
            && (l > 0 ==> l <= cap && forall coin ::
                            && FirstIsFaster(NearTie, Effective(l), Effective(0), coin)
                            && !FirstIsFaster(NearTie, Effective(0), Effective(l), coin))
  {
    var h := History(bs, e);
    RunReplays(p, s, bs, e);
    forall k | 0 <= k < |h| && h[k].Success? ensures 1 <= h[k].latency <= cap {
      ProjectOrigin(Flatten(bs), e, k);
    }
    SamplesMeasured(h, cap);
    SentinelMeansUnprobed(p, h, cap);
    ReplayAverages(p, h);
    Envelope(p.alpha, Samples(h), 1, cap);
    SamplesEmpty(h);
    var l := Run(p, s, bs).health[e].ewma;
    if l > 0 {
      BandBelow(l, cap);
      UnprobedNeverBeatsMeasured(NearTie, l, true);
      UnprobedNeverBeatsMeasured(NearTie, l, false);
    }
  }

  /** The average that is routed on never leaves the range of the samples seen. */
  lemma RoutedEnvelope(p: Params, s: PoolState, bs: seq<Batch>, e: Endpoint, lo: int, hi: int)
    requires New(s) && e in s.members && Samples(History(bs, e)) != []
    requires AllWithin(Samples(History(bs, e)), lo, hi)
    ensures lo <= Run(p, s, bs).health[e].ewma <= hi
  {
    RunReplays(p, s, bs, e);
    ReplayAverages(p, History(bs, e));
    Envelope(p.alpha, Samples(History(bs, e)), lo, hi);
  }

  /** The average that is routed on is less than 1/alpha nanoseconds away from the exact one over the
      samples since it was last seeded, whatever the probes measured. */
  lemma AverageDrift(p: Params, s: PoolState, bs: seq<Batch>, e: Endpoint)
    requires New(s) && e in s.members && Samples(History(bs, e)) != []
    ensures var ss := Samples(History(bs, e));
            Near(p.alpha, Exact(p.alpha, ss[Seed(p.alpha, ss)..]), Run(p, s, bs).health[e].ewma, NoneNegative(ss))
  {
    RunReplays(p, s, bs, e);
    ReplayAverages(p, History(bs, e));
    Drift(p.alpha, Samples(History(bs, e)));
  }

  /** With a clock that never reports zero, those are all the samples. */
  lemma MeasuredDrift(p: Params, s: PoolState, bs: seq<Batch>, cap: Duration, e: Endpoint)
    requires New(s) && e in s.members && Measured(bs, cap) && Samples(History(bs, e)) != []
    ensures Near(p.alpha, Exact(p.alpha, Samples(History(bs, e))), Run(p, s, bs).health[e].ewma, true)
  {
    var h := History(bs, e);
    forall k | 0 <= k < |h| && h[k].Success? ensures 1 <= h[k].latency <= cap {
      ProjectOrigin(Flatten(bs), e, k);
    }
    SamplesMeasured(h, cap);
    SeedIsFirst(p.alpha, Samples(h));
    AverageDrift(p, s, bs, e);
    assert Samples(h)[0..] == Samples(h);
  }

  lemma BandBelow(l: int, cap: int)
    requires 0 <= l <= cap && 5 * cap < 4 * MAX_DURATION
    ensures l < MAX_DURATION && NearTie(l) < MAX_DURATION
  {
    assert 1.25 * l as real == (5 * l) as real / 4.0;
  }

  lemma {:induction false} SamplesMeasured(h: seq<Outcome>, cap: int)
    requires forall k | 0 <= k < |h| && h[k].Success? :: 1 <= h[k].latency <= cap
    ensures AllWithin(Samples(h), 1, cap)
  {
    if h != [] {
      SamplesMeasured(h[..|h| - 1], cap);
    }
  }
}
