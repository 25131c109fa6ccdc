// When a selection falls back to a lagging endpoint (router/types.go:161-168): possible in a pool that
// is written piecemeal, never in one that only whole health cycles write.
module Degraded {
  import opened Probes
  import opened Hysteresis
  import opened Sampler
  import opened Endpoints
  import opened PoolSpec
  import opened PoolRuns

  /** A selection with this draw falls back to a lagging endpoint. */
  ghost predicate IsDegraded(p: Params, g: Band, s: PoolState, d: Draw) {
    Select(p, g, s, null, d).Selected? && Select(p, g, s, null, d).degraded
  }

  ghost predicate DegradedAfter(p: Params, g: Band, s: PoolState) {
    exists d :: IsDegraded(p, g, s, d)
  }

  /** After these batches some draw falls back. */
  ghost predicate EndsDegraded(p: Params, g: Band, s: PoolState, bs: seq<Batch>) {
    DegradedAfter(p, g, Run(p, s, bs))
  }

  /** Between batches, one live endpoint is enough for an answer that is not degraded. */
  lemma LiveMeansCurrent(p: Params, g: Band, s: PoolState, d: Draw, e: Endpoint)
    requires HeadIsWatermark(s) && e in s.members && Live(s.health[e])
    ensures Select(p, g, s, null, d).Selected? && !Select(p, g, s, null, d).degraded
  {
    LiveMaxIsMaximum(s.members, s.health);
    var o := e;
    if Head(s) > 0 {
      o :| o in s.members && LiveSlot(s.health[o]) == Head(s);
    }
    assert Eligible(s, null, o) && Current(p, s, o);
    SelectSound(p, g, s, null, d);
  }

  /** The most recent probe of an endpoint failed. */
  predicate LastFailed(h: seq<Outcome>) {
    h != [] && h[|h| - 1].Failure?
  }

  /** If a selection is degraded, the most recent probe of every healthy endpoint failed. */
  lemma DegradedOnlyIfAllFailed(p: Params, g: Band, s: PoolState, bs: seq<Batch>, d: Draw, e: Endpoint)
    requires New(s) && e in s.members
    requires IsDegraded(p, g, Run(p, s, bs), d) && Run(p, s, bs).health[e].healthy
    ensures LastFailed(History(bs, e))
  {
    RunHeadIsWatermark(p, s, bs);
    RunReplays(p, s, bs, e);
    CountersMeaning(p, History(bs, e));
    if Live(Run(p, s, bs).health[e]) {
      LiveMeansCurrent(p, g, Run(p, s, bs), d, e);
    }
  }

  // ---- Whole cycles ----

  /** A full health cycle: one result for every member. */
  ghost predicate FullCycle(members: seq<Endpoint>, b: Batch) {
    forall e | e in members :: |Project(b, e)| == 1
  }

  /** A result for every member, in the pool's order. */
  lemma InOrderIsFull(s: PoolState, b: Batch)
    requires |b| == |s.members| && forall k | 0 <= k < |b| :: b[k].endpoint == s.members[k]
    ensures FullCycle(s.members, b)
  {
    forall e | e in s.members ensures |Project(b, e)| == 1 {
      var k :| 0 <= k < |s.members| && s.members[k] == e;
      ProjectMembers(s, b, k, |s.members|);
      assert b[..|s.members|] == b;
    }
  }

  lemma {:induction false} ProjectMembers(s: PoolState, b: Batch, k: nat, n: nat)
    requires k < |s.members| == |b| && n <= |b|
    requires forall i | 0 <= i < |b| :: b[i].endpoint == s.members[i]
    ensures Project(b[..n], s.members[k]) == if k < n then [b[k].Outcome()] else []
  {
    if n > 0 {
      ProjectMembers(s, b, k, n - 1);
      assert b[..n][..n - 1] == b[..n - 1] && b[..n][n - 1] == b[n - 1];
      assert b[n - 1].endpoint == s.members[k] <==> n - 1 == k;
    }
  }

  ghost predicate WholeCycles(members: seq<Endpoint>, bs: seq<Batch>) {
    forall k | 0 <= k < |bs| :: FullCycle(members, bs[k])
  }

  /** What any probe leaves behind. */
  predicate Counted(p: Params, h: Health) {
    && (h.lastErr.None? <==> h.consecFails == 0)
    && (h.healthy ==> h.consecFails < p.failThresh)
  }

  /** The last n cycles had no head: whoever is healthy and has a slot failed in all of them. */
  predicate FailedFor(h: Health, n: int) {
    h.healthy && h.slot > 0 ==> h.consecFails >= n
  }

  /** The endpoint that set the watermark n cycles ago still counts as current, until so many cycles have
      passed that everyone who failed in all of them is ejected. */
  predicate HoldsOn(p: Params, s: PoolState, a: Endpoint, n: int)
    requires a in s.members
  {
    || n >= p.failThresh
    || (s.health[a].healthy && s.health[a].consecFails <= n
        && (s.health[a].slot == s.maxSlot || s.health[a].slot == 0))
  }

  ghost predicate Headless(p: Params, s: PoolState, a: Endpoint, n: int)
    requires a in s.members
  {
    && (forall e | e in s.members :: FailedFor(s.health[e], n))
    && HoldsOn(p, s, a, n)
  }

  /** The invariant of a pool that only whole cycles write. */
  ghost predicate Steady(p: Params, s: PoolState) {
    && HeadIsWatermark(s)
    && (forall e | e in s.members :: Counted(p, s.health[e]))
    && (Head(s) == 0 && s.maxSlot > 0 ==> exists a, n :: a in s.members && Headless(p, s, a, n))
  }

  lemma NewIsSteady(p: Params, s: PoolState)
    requires New(s)
    ensures Steady(p, s)
  {
    NewHead(s);
  }

  /** In such a pool an endpoint that lags is never the best there is. */
  lemma SteadyHasCurrent(p: Params, s: PoolState, e: Endpoint)
    requires Steady(p, s) && Eligible(s, null, e)
    ensures SomeCurrent(p, s, null)
  {
    var leader := e;
    if Head(s) > 0 {
      LiveMaxIsMaximum(s.members, s.health);
      leader :| leader in s.members && LiveSlot(s.health[leader]) == Head(s);
    } else if !Current(p, s, e) {
      var a, n :| a in s.members && Headless(p, s, a, n);
      assert FailedFor(s.health[e], n) && Counted(p, s.health[e]);
      leader := a;
    }
    assert Eligible(s, null, leader) && Current(p, s, leader);
  }

  lemma SteadyIsCurrent(p: Params, g: Band, s: PoolState, d: Draw)
    requires Steady(p, s)
    ensures !IsDegraded(p, g, s, d)
  {
    SelectSound(p, g, s, null, d);
    if e :| e in s.members && Eligible(s, null, e) {
      SteadyHasCurrent(p, s, e);
    }
  }

  lemma CycleKeepsSteady(p: Params, s: PoolState, b: Batch)
    requires Steady(p, s) && FullCycle(s.members, b)
    ensures Steady(p, ApplyBatch(p, s, b))
  {
    var r := ApplyBatch(p, s, b);
    forall e | e in s.members ensures Counted(p, r.health[e]) {
      var o := OneOutcome(p, s, b, e);
    }
    if Head(r) == 0 && r.maxSlot > 0 {
      if Head(s) > 0 {
        LeaderGone(p, s, b);
      } else {
        var a, n :| a in s.members && Headless(p, s, a, n);
        StillHeadless(p, s, b, a, n);
      }
    }
  }

  /** What a full cycle does to one member. */
  lemma OneOutcome(p: Params, s: PoolState, b: Batch, e: Endpoint) returns (o: Outcome)
    requires FullCycle(s.members, b) && e in s.members
    ensures ApplyBatch(p, s, b).health[e] == Record(p, s.health[e], o)
  {
    o := Project(b, e)[0];
    assert Project(b, e) == [o];
    ReplayOne(p, s.health[e], o);
  }

  lemma NobodyLive(s: PoolState, e: Endpoint)
    requires Head(s) == 0 && e in s.members
    ensures LiveSlot(s.health[e]) == 0
  {
    LiveMaxIsMaximum(s.members, s.health);
  }

  /** The first cycle without a head: its former leader failed once, or now reports slot 0. */
  lemma LeaderGone(p: Params, s: PoolState, b: Batch)
    requires Steady(p, s) && FullCycle(s.members, b)
    requires Head(s) > 0 && Head(ApplyBatch(p, s, b)) == 0
    ensures exists a, n :: a in s.members && Headless(p, ApplyBatch(p, s, b), a, n)
  {
    var r := ApplyBatch(p, s, b);
    LiveMaxIsMaximum(s.members, s.health);
    var a :| a in s.members && LiveSlot(s.health[a]) == Head(s);
    var o := OneOutcome(p, s, b, a);
    NobodyLive(r, a);
    assert Counted(p, s.health[a]);
    assert HoldsOn(p, r, a, 1);
    forall e | e in s.members ensures FailedFor(r.health[e], 1) {
      var oe := OneOutcome(p, s, b, e);
      NobodyLive(r, e);
    }
    assert Headless(p, r, a, 1);
  }

  /** One more cycle without a head. */
  lemma StillHeadless(p: Params, s: PoolState, b: Batch, a: Endpoint, n: int)
    requires FullCycle(s.members, b) && a in s.members && Headless(p, s, a, n)
    requires Head(s) == 0 && Head(ApplyBatch(p, s, b)) == 0
    ensures Headless(p, ApplyBatch(p, s, b), a, n + 1)
  {
    var r := ApplyBatch(p, s, b);
    forall e | e in s.members ensures FailedFor(r.health[e], n + 1) {
      var o := OneOutcome(p, s, b, e);
      NobodyLive(r, e);
      assert FailedFor(s.health[e], n);
    }
    if n < p.failThresh {
      var o := OneOutcome(p, s, b, a);
      NobodyLive(r, a);
    }
  }

  lemma {:induction false} SteadyRun(p: Params, s: PoolState, bs: seq<Batch>)
    requires Steady(p, s) && WholeCycles(s.members, bs)
    ensures Steady(p, Run(p, s, bs))
  {
    if bs != [] {
      var n := |bs| - 1;
      SteadyRun(p, s, bs[..n]);
      CycleKeepsSteady(p, Run(p, s, bs[..n]), bs[n]);
    }
  }

  /** Main result: a pool that whole cycles have written from the start never falls back to a lagging
      endpoint, whatever the probes reported. */
  lemma NeverDegraded(p: Params, g: Band, s: PoolState, bs: seq<Batch>)
    requires New(s) && WholeCycles(s.members, bs)
    ensures !EndsDegraded(p, g, s, bs)
  {
    NewIsSteady(p, s);
    SteadyRun(p, s, bs);
    if d :| IsDegraded(p, g, Run(p, s, bs), d) {
      SteadyIsCurrent(p, g, Run(p, s, bs), d);
    }
  }
}
