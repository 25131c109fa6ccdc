// A pool that is written piecemeal, one result at a time or otherwise (router/types.go:266-287): when a
// selection can fall back to a lagging endpoint there, and for how long.
module Piecemeal {
  import opened GoTypes
  import opened Probes
  import opened Hysteresis
  import opened Sampler
  import opened Endpoints
  import opened PoolSpec
  import opened PoolRuns
  import opened Degraded
  import opened Trickle

  /** Full cycles from s on, after each of which routing is degraded. */
  ghost predicate DegradedSpell(p: Params, g: Band, s: PoolState, cycles: seq<Batch>) {
    cycles != [] ==>
      var n := |cycles| - 1;
      && DegradedSpell(p, g, s, cycles[..n])
      && FullCycle(s.members, cycles[n])
      && DegradedAfter(p, g, Run(p, s, cycles))
  }

  ghost predicate SpellAfter(p: Params, g: Band, s: PoolState, before: seq<Batch>, cycles: seq<Batch>) {
    DegradedSpell(p, g, Run(p, s, before), cycles)
  }

  /** After batches of any kind, degraded routing survives at most failThresh - 2 full cycles, and it does not
      survive one unless nobody was live with a slot. */
  lemma DegradedSpellIsShort(p: Params, g: Band, s: PoolState, before: seq<Batch>, cycles: seq<Batch>)
    requires New(s) && SpellAfter(p, g, s, before, cycles) && cycles != []
    ensures |cycles| + 2 <= p.failThresh
    ensures forall e | e in s.members :: LiveSlot(Run(p, s, before).health[e]) == 0
  {
    RunHeadIsWatermark(p, s, before);
    forall o | o in s.members ensures Counted(p, Run(p, s, before).health[o]) {
      RunCounted(p, s, before, o);
    }
    forall o | o in s.members ensures Counted(p, Run(p, Run(p, s, before), cycles).health[o]) {
      RunConcat(p, s, before, Run(p, s, before), cycles, Run(p, Run(p, s, before), cycles));
      RunCounted(p, s, before + cycles, o);
    }
    SpellBound(p, g, Run(p, s, before), cycles);
  }

  /** A pool with a head is steady, and so the next full cycle leaves it with a current endpoint. */
  lemma SpellStartsHeadless(p: Params, g: Band, s: PoolState, cycles: seq<Batch>)
    requires HeadIsWatermark(s) && forall o | o in s.members :: Counted(p, s.health[o])
    requires DegradedSpell(p, g, s, cycles) && cycles != []
    ensures forall e | e in s.members :: LiveSlot(s.health[e]) == 0
  {
    SpellStarts(p, g, s, cycles);
    if Head(s) > 0 {
      CycleKeepsSteady(p, s, cycles[0]);
      var d :| IsDegraded(p, g, ApplyBatch(p, s, cycles[0]), d);
      SteadyIsCurrent(p, g, ApplyBatch(p, s, cycles[0]), d);
      assert false;
    }
    LiveMaxIsMaximum(s.members, s.health);
  }

  lemma SpellBound(p: Params, g: Band, s: PoolState, cycles: seq<Batch>)
    requires HeadIsWatermark(s) && forall o | o in s.members :: Counted(p, s.health[o])
    requires forall o | o in s.members :: Counted(p, Run(p, s, cycles).health[o])
    requires DegradedSpell(p, g, s, cycles) && cycles != []
    ensures |cycles| + 2 <= p.failThresh
    ensures forall e | e in s.members :: LiveSlot(s.health[e]) == 0
  {
    var r := Run(p, s, cycles);
    var e := LaggingEndpoint(p, g, r);
    HealthyThroughSpell(p, g, s, cycles, e);
    SpellStartsHeadless(p, g, s, cycles);
  }

  lemma LaggingEndpoint(p: Params, g: Band, s: PoolState) returns (e: Endpoint)
    requires DegradedAfter(p, g, s)
    ensures e in s.members && s.health[e].healthy && s.health[e].slot > 0
  {
    var d :| IsDegraded(p, g, s, d);
    SelectSound(p, g, s, null, d);
    e := Select(p, g, s, null, d).endpoint;
  }

  lemma RunCounted(p: Params, s: PoolState, bs: seq<Batch>, e: Endpoint)
    requires New(s) && e in s.members
    ensures Counted(p, Run(p, s, bs).health[e])
  {
    RunReplays(p, s, bs, e);
    CountersMeaning(p, History(bs, e));
  }

  /** An endpoint healthy at the end of a spell failed in every one of its cycles, and in nothing else
      did it change its slot. */
  lemma {:induction false} HealthyThroughSpell(p: Params, g: Band, s: PoolState, cycles: seq<Batch>, e: Endpoint)
    requires e in s.members && HeadIsWatermark(s) && DegradedSpell(p, g, s, cycles)
    requires Run(p, s, cycles).health[e].healthy
    ensures s.health[e].healthy
    ensures Run(p, s, cycles).health[e].consecFails == s.health[e].consecFails + |cycles|
    ensures Run(p, s, cycles).health[e].slot == s.health[e].slot
  {
    if cycles != [] {
      var n := |cycles| - 1;
      FailedInCycle(p, g, Run(p, s, cycles[..n]), cycles[n], e);
      HealthyThroughSpell(p, g, s, cycles[..n], e);
    }
  }

  lemma FailedInCycle(p: Params, g: Band, s: PoolState, b: Batch, e: Endpoint)
    requires e in s.members && FullCycle(s.members, b)
    requires DegradedAfter(p, g, ApplyBatch(p, s, b)) && ApplyBatch(p, s, b).health[e].healthy
    ensures var h := ApplyBatch(p, s, b).health[e];
            s.health[e].healthy && h.consecFails == s.health[e].consecFails + 1 && h.slot == s.health[e].slot
  {
    DegradedMeansFailing(p, g, ApplyBatch(p, s, b), e);
    var o := OneOutcome(p, s, b, e);
  }

  lemma DegradedMeansFailing(p: Params, g: Band, s: PoolState, e: Endpoint)
    requires HeadIsWatermark(s) && e in s.members && DegradedAfter(p, g, s)
    ensures !Live(s.health[e])
  {
    var d :| IsDegraded(p, g, s, d);
    if Live(s.health[e]) {
      LiveMeansCurrent(p, g, s, d, e);
    }
  }

  lemma {:induction false} SpellStarts(p: Params, g: Band, s: PoolState, cycles: seq<Batch>)
    requires DegradedSpell(p, g, s, cycles) && cycles != []
    ensures FullCycle(s.members, cycles[0]) && DegradedAfter(p, g, ApplyBatch(p, s, cycles[0]))
  {
    var n := |cycles| - 1;
    if n > 0 {
      SpellStarts(p, g, s, cycles[..n]);
    } else {
      assert cycles[..0] == [] && Run(p, s, cycles) == ApplyBatch(p, s, cycles[0]);
    }
  }

  // ---- The bound is attained ----

  function Fail(e: Endpoint, err: Error): ProbeResult {
    ProbeResult(e, 0, 0, Some(err))
  }

  function Succeed(e: Endpoint, slot: uint64): ProbeResult {
    ProbeResult(e, slot, 1, None)
  }

  /** Failing in a row: n probes, the last known slot, healthy while n is short of the threshold. */
  predicate Failing(p: Params, h: Health, slot: uint64, n: int) {
    h.slot == slot && h.consecFails == n && (h.lastErr.None? <==> n == 0) && (h.healthy <==> n < p.failThresh)
  }

  /** The first member led and has failed m times since; all others are behind and failed n times. */
  ghost predicate Stuck(p: Params, s: PoolState, hi: uint64, lo: uint64, m: int, n: int) {
    && |s.members| >= 2 && s.maxSlot == hi
    && Failing(p, s.health[s.members[0]], hi, m)
    && forall k | 1 <= k < |s.members| :: Failing(p, s.health[s.members[k]], lo, n)
  }

  lemma StuckIsDegraded(p: Params, g: Band, s: PoolState, hi: uint64, lo: uint64, m: int, n: int)
    requires Stuck(p, s, hi, lo, m, n) && n < p.failThresh <= m
    requires 0 < lo && hi - lo > p.maxSlotLag
    ensures DegradedAfter(p, g, s)
  {
    var d := Draw(0, 0, true);
    SelectSound(p, g, s, null, d);
    assert Eligible(s, null, s.members[1]);
    forall o | o in s.members && Eligible(s, null, o) ensures !Current(p, s, o) {
      var k :| 0 <= k < |s.members| && s.members[k] == o;
    }
    assert IsDegraded(p, g, s, d);
  }

  lemma ReplayedOne(p: Params, s: PoolState, r: ProbeResult)
    ensures var t := Replayed(p, s, [r]);
            forall e | e in s.members ::
              t.health[e] == if r.endpoint == e then Record(p, s.health[e], r.Outcome()) else s.health[e]
  {
    forall e | e in s.members
      ensures Replayed(p, s, [r]).health[e]
           == if r.endpoint == e then Record(p, s.health[e], r.Outcome()) else s.health[e]
    {
      ProjectOne(r, e);
      ReplayOne(p, s.health[e], r.Outcome());
    }
  }

  lemma HeadIs(s: PoolState, e: Endpoint, top: uint64)
    requires e in s.members && LiveSlot(s.health[e]) == top
    requires forall o | o in s.members :: LiveSlot(s.health[o]) <= top
    ensures Head(s) == top
  {
    LiveMaxIsMaximum(s.members, s.health);
  }

  /** The leader has reported, and so have the other members before the j-th, which have failed since. */
  ghost predicate Staged(p: Params, s: PoolState, hi: uint64, lo: uint64, j: nat) {
    && 1 <= j <= |s.members| && s.maxSlot == hi
    && Failing(p, s.health[s.members[0]], hi, 0)
    && (forall k | 1 <= k < j :: Failing(p, s.health[s.members[k]], lo, 1))
    && (forall k | j <= k < |s.members| :: s.health[s.members[k]] == FRESH)
  }

  lemma FirstReports(p: Params, s: PoolState, hi: uint64, lo: uint64)
    requires New(s) && s.members != [] && hi > 0
    ensures Staged(p, ApplyBatch(p, s, [Succeed(s.members[0], hi)]), hi, lo, 1)
  {
    var b := [Succeed(s.members[0], hi)];
    ReplayedOne(p, s, b[0]);
    HeadIs(Replayed(p, s, b), s.members[0], hi);
  }

  /** Member j reports a slot far behind; the leader keeps the watermark. */
  lemma NextReports(p: Params, s: PoolState, hi: uint64, lo: uint64, j: nat, r: PoolState)
    requires Staged(p, s, hi, lo, j) && j < |s.members| && lo < hi
    requires r == ApplyBatch(p, s, [Succeed(s.members[j], lo)])
    ensures r.maxSlot == hi
    ensures forall k | 0 <= k < |s.members| && k != j :: r.health[s.members[k]] == s.health[s.members[k]]
    ensures Failing(p, r.health[s.members[j]], lo, 0)
  {
    var b := [Succeed(s.members[j], lo)];
    ReplayedOne(p, s, b[0]);
    OthersUntouched(s, j);
    StagedHead(p, s, r, hi, lo, j);
  }

  lemma OthersUntouched(s: PoolState, j: nat)
    requires j < |s.members|
    ensures forall k | 0 <= k < |s.members| && k != j :: s.members[k] != s.members[j]
  {
  }

  /** While the leader is live and nobody is ahead of it, it is the head. */
  lemma StagedHead(p: Params, s: PoolState, r: PoolState, hi: uint64, lo: uint64, j: nat)
    requires Staged(p, s, hi, lo, j) && j < |s.members| && lo < hi && r.members == s.members
    requires forall k | 0 <= k < |s.members| && k != j :: r.health[s.members[k]] == s.health[s.members[k]]
    requires r.health[s.members[j]].slot == lo
    ensures Head(r) == hi
  {
    forall o | o in r.members ensures LiveSlot(r.health[o]) <= hi {
      var k :| 0 <= k < |s.members| && s.members[k] == o;
    }
    HeadIs(r, s.members[0], hi);
  }

  lemma NextStage(p: Params, s: PoolState, hi: uint64, lo: uint64, j: nat, err: Error) returns (r: PoolState)
    requires Staged(p, s, hi, lo, j) && j < |s.members| && lo < hi
    ensures r == ApplyBatch(p, ApplyBatch(p, s, [Succeed(s.members[j], lo)]), [Fail(s.members[j], err)])
    ensures Staged(p, r, hi, lo, j + 1)
  {
    var reported := ApplyBatch(p, s, [Succeed(s.members[j], lo)]);
    NextReports(p, s, hi, lo, j, reported);
    r := ApplyBatch(p, reported, [Fail(s.members[j], err)]);
    ReplayedOne(p, reported, Fail(s.members[j], err));
    OthersUntouched(s, j);
    StagedHead(p, s, Replayed(p, reported, [Fail(s.members[j], err)]), hi, lo, j);
  }

  /** Every batch is a single result, as RecordProbe applies them. */
  ghost predicate OneByOne(bs: seq<Batch>) {
    forall k | 0 <= k < |bs| :: |bs[k]| == 1
  }

  /** RecordProbe once more. */
  lemma OneMoreResult(p: Params, s: PoolState, bs: seq<Batch>, t: PoolState, r: ProbeResult)
    requires Reached(p, s, bs, t) && OneByOne(bs)
    ensures Reached(p, s, bs + [[r]], ApplyBatch(p, t, [r])) && OneByOne(bs + [[r]])
  {
    ReachedNext(p, s, bs, t, [r]);
  }

  lemma {:induction false} Stages(p: Params, s: PoolState, hi: uint64, lo: uint64, j: nat, err: Error)
    returns (bs: seq<Batch>, r: PoolState)
    requires New(s) && 1 <= j <= |s.members| && lo < hi
    ensures Reached(p, s, bs, r) && OneByOne(bs)
    ensures r.members == s.members && Staged(p, r, hi, lo, j)
  {
    if j == 1 {
      bs, r := FirstStage(p, s, hi, lo);
    } else {
      var fewer, t := Stages(p, s, hi, lo, j - 1, err);
      r := NextStage(p, t, hi, lo, j - 1, err);
      OneMoreResult(p, s, fewer, t, Succeed(s.members[j - 1], lo));
      bs := fewer + [[Succeed(s.members[j - 1], lo)]];
      OneMoreResult(p, s, bs, ApplyBatch(p, t, [Succeed(s.members[j - 1], lo)]), Fail(s.members[j - 1], err));
      bs := bs + [[Fail(s.members[j - 1], err)]];
    }
  }

  lemma FirstStage(p: Params, s: PoolState, hi: uint64, lo: uint64) returns (bs: seq<Batch>, r: PoolState)
    requires New(s) && s.members != [] && hi > 0
    ensures bs == [[Succeed(s.members[0], hi)]] && Reached(p, s, bs, r)
    ensures r == ApplyBatch(p, s, bs[0]) && Staged(p, r, hi, lo, 1)
  {
    FirstReports(p, s, hi, lo);
    OneMoreResult(p, s, [], s, Succeed(s.members[0], hi));
    bs, r := [] + [[Succeed(s.members[0], hi)]], ApplyBatch(p, s, [Succeed(s.members[0], hi)]);
  }

  lemma NobodyLeads(s: PoolState)
    requires forall o | o in s.members :: LiveSlot(s.health[o]) == 0
    ensures Head(s) == 0
  {
    LiveMaxIsMaximum(s.members, s.health);
  }

  /** The leader alone fails once more: nobody else takes the watermark. */
  lemma LeaderFails(p: Params, s: PoolState, hi: uint64, lo: uint64, m: int, n: int, err: Error)
    requires Stuck(p, s, hi, lo, m, n) && m >= 0 && n > 0
    ensures Stuck(p, ApplyBatch(p, s, [Fail(s.members[0], err)]), hi, lo, m + 1, n)
  {
    var r := Replayed(p, s, [Fail(s.members[0], err)]);
    ReplayedOne(p, s, Fail(s.members[0], err));
    OthersUntouched(s, 0);
    forall o | o in r.members ensures LiveSlot(r.health[o]) == 0 {
      var k :| 0 <= k < |s.members| && s.members[k] == o;
    }
    NobodyLeads(r);
  }

  function AllFailing(members: seq<Endpoint>, err: Error): (b: Batch)
    ensures |b| == |members|
  {
    seq(|members|, k requires 0 <= k < |members| => Fail(members[k], err))
  }

  lemma AllRecorded(p: Params, s: PoolState, err: Error, k: nat)
    requires k < |s.members|
    ensures Replayed(p, s, AllFailing(s.members, err)).health[s.members[k]]
         == Record(p, s.health[s.members[k]], Failure(err))
  {
    var b := AllFailing(s.members, err);
    ProjectMembers(s, b, k, |b|);
    assert b[..|b|] == b;
    ReplayOne(p, s.health[s.members[k]], Failure(err));
  }

  /** Everybody fails once more, in a whole cycle. */
  lemma AllFail(p: Params, s: PoolState, hi: uint64, lo: uint64, m: int, n: int, err: Error)
    requires Stuck(p, s, hi, lo, m, n) && m >= 0 && n >= 0
    ensures Stuck(p, ApplyBatch(p, s, AllFailing(s.members, err)), hi, lo, m + 1, n + 1)
    ensures FullCycle(s.members, AllFailing(s.members, err))
  {
    var r := Replayed(p, s, AllFailing(s.members, err));
    InOrderIsFull(s, AllFailing(s.members, err));
    forall k | 0 <= k < |s.members|
      ensures r.health[s.members[k]] == Record(p, s.health[s.members[k]], Failure(err))
    {
      AllRecorded(p, s, err, k);
    }
    forall o | o in r.members ensures LiveSlot(r.health[o]) == 0 {
      var k :| 0 <= k < |s.members| && s.members[k] == o;
    }
    NobodyLeads(r);
  }

  lemma {:induction false} LeaderGoes(p: Params, s: PoolState, hi: uint64, lo: uint64, m: nat, err: Error)
    returns (bs: seq<Batch>, r: PoolState)
    requires New(s) && |s.members| >= 2 && lo < hi
    ensures Reached(p, s, bs, r) && OneByOne(bs)
    ensures r.members == s.members && Stuck(p, r, hi, lo, m, 1)
  {
    if m == 0 {
      bs, r := Stages(p, s, hi, lo, |s.members|, err);
    } else {
      var fewer, t := LeaderGoes(p, s, hi, lo, m - 1, err);
      LeaderFails(p, t, hi, lo, m - 1, 1, err);
      OneMoreResult(p, s, fewer, t, Fail(s.members[0], err));
      bs, r := fewer + [[Fail(s.members[0], err)]], ApplyBatch(p, t, [Fail(s.members[0], err)]);
    }
  }

  lemma {:induction false} Spell(p: Params, g: Band, s: PoolState, hi: uint64, lo: uint64, m: int, k: nat, err: Error)
    returns (cycles: seq<Batch>)
    requires Stuck(p, s, hi, lo, m, 1) && 0 < lo && hi - lo > p.maxSlotLag
    requires 1 + k < p.failThresh <= m
    ensures |cycles| == k && DegradedSpell(p, g, s, cycles)
    ensures Stuck(p, Run(p, s, cycles), hi, lo, m + k, 1 + k)
  {
    if k == 0 {
      cycles := [];
    } else {
      var fewer := Spell(p, g, s, hi, lo, m, k - 1, err);
      var b := AllFailing(s.members, err);
      AllFail(p, Run(p, s, fewer), hi, lo, m + k - 1, k, err);
      RunSnoc(p, s, fewer, b);
      cycles := fewer + [b];
      assert cycles[..k - 1] == fewer;
      StuckIsDegraded(p, g, Run(p, s, cycles), hi, lo, m + k, 1 + k);
    }
  }

  /** Two slots can be further apart than the limit. */
  predicate Roomy(p: Params) {
    p.maxSlotLag + 2 <= MAX_UINT64
  }

  /** In any pool of two or more: results that arrive one at a time can leave it degraded, and it may stay so
      for failThresh - 2 full cycles. */
  lemma DegradedSpellIsTight(p: Params, g: Band, s: PoolState, err: Error)
    returns (before: seq<Batch>, cycles: seq<Batch>)
    requires New(s) && |s.members| >= 2 && p.failThresh >= 2 && Roomy(p)
    ensures OneByOne(before) && EndsDegraded(p, g, s, before)
    ensures SpellAfter(p, g, s, before, cycles) && |cycles| + 2 == p.failThresh
  {
    var hi, lo := p.maxSlotLag + 2, 1;
    var r;
    before, r := LeaderGoes(p, s, hi, lo, p.failThresh, err);
    StuckIsDegraded(p, g, r, hi, lo, p.failThresh, 1);
    cycles := Spell(p, g, r, hi, lo, p.failThresh, p.failThresh - 2, err);
  }

  // ---- When a degraded selection is possible at all ----

  ghost predicate OncePerBatch(members: seq<Endpoint>, bs: seq<Batch>) {
    forall k | 0 <= k < |bs| :: AtMostOnce(members, bs[k])
  }

  lemma OneByOneIsOnce(members: seq<Endpoint>, bs: seq<Batch>)
    requires OneByOne(bs)
    ensures OncePerBatch(members, bs)
  {
    forall k, e | 0 <= k < |bs| && e in members ensures |Project(bs[k], e)| <= 1 {
      assert bs[k] == [bs[k][0]];
      ProjectOne(bs[k][0], e);
    }
  }

  /** Main result: batches in which no endpoint occurs twice lead a new pool to a degraded selection exactly
      if it has two members or more, one failure does not eject, and slots can be that far apart. */
  lemma DegradedReachable(p: Params, g: Band, s: PoolState)
    requires New(s)
    ensures (exists bs :: OncePerBatch(s.members, bs) && EndsDegraded(p, g, s, bs))
       <==> |s.members| >= 2 && p.failThresh >= 2 && Roomy(p)
  {
    if |s.members| >= 2 && p.failThresh >= 2 && Roomy(p) {
      var bs, _ := DegradedSpellIsTight(p, g, s, "");
      OneByOneIsOnce(s.members, bs);
    } else {
      forall bs | OncePerBatch(s.members, bs) ensures !EndsDegraded(p, g, s, bs) {
        if EndsDegraded(p, g, s, bs) {
          DegradedNeeds(p, g, s, bs);
          LoneNeverDegraded(p, g, s, bs);
        }
      }
    }
  }

  /** If a batch may hold several results of one endpoint, a single member is enough. */
  lemma DegradedReachableByAny(p: Params, g: Band, s: PoolState)
    requires New(s)
    ensures (exists bs :: EndsDegraded(p, g, s, bs)) <==> s.members != [] && p.failThresh >= 2 && Roomy(p)
  {
    if s.members != [] && p.failThresh >= 2 && Roomy(p) {
      if |s.members| == 1 {
        var bs := LoneDegrades(p, g, s, "");
      } else {
        var bs, _ := DegradedSpellIsTight(p, g, s, "");
      }
    } else {
      forall bs ensures !EndsDegraded(p, g, s, bs) {
        if EndsDegraded(p, g, s, bs) {
          DegradedNeeds(p, g, s, bs);
        }
      }
    }
  }

  lemma DegradedNeeds(p: Params, g: Band, s: PoolState, bs: seq<Batch>)
    requires New(s) && EndsDegraded(p, g, s, bs)
    ensures s.members != [] && p.failThresh >= 2 && Roomy(p)
  {
    var r := Run(p, s, bs);
    var d :| IsDegraded(p, g, r, d);
    SelectSound(p, g, r, null, d);
    var e := Select(p, g, r, null, d).endpoint;
    RunCounted(p, s, bs, e);
    RunHeadIsWatermark(p, s, bs);
    DegradedMeansFailing(p, g, r, e);
  }

  /** Results of others do not change a pool. */
  lemma NothingNew(p: Params, s: PoolState, b: Batch)
    requires HeadIsWatermark(s) && forall e | e in s.members :: Project(b, e) == []
    ensures ApplyBatch(p, s, b) == s
  {
    assert Replayed(p, s, b).health == s.health;
  }

  lemma LoneKeepsSteady(p: Params, s: PoolState, b: Batch)
    requires Steady(p, s) && |s.members| <= 1 && AtMostOnce(s.members, b)
    ensures Steady(p, ApplyBatch(p, s, b))
  {
    if FullCycle(s.members, b) {
      CycleKeepsSteady(p, s, b);
    } else {
      NothingNew(p, s, b);
    }
  }

  lemma {:induction false} LoneStaysSteady(p: Params, s: PoolState, bs: seq<Batch>)
    requires New(s) && |s.members| <= 1 && OncePerBatch(s.members, bs)
    ensures Steady(p, Run(p, s, bs))
  {
    if bs == [] {
      NewIsSteady(p, s);
    } else {
      LoneStaysSteady(p, s, bs[..|bs| - 1]);
      LoneKeepsSteady(p, Run(p, s, bs[..|bs| - 1]), bs[|bs| - 1]);
    }
  }

  lemma LoneNeverDegraded(p: Params, g: Band, s: PoolState, bs: seq<Batch>)
    requires New(s) && OncePerBatch(s.members, bs) && EndsDegraded(p, g, s, bs)
    ensures |s.members| >= 2
  {
    if |s.members| <= 1 {
      LoneStaysSteady(p, s, bs);
      var d :| IsDegraded(p, g, Run(p, s, bs), d);
      SteadyIsCurrent(p, g, Run(p, s, bs), d);
      assert false;
    }
  }

  /** A lone endpoint far ahead, then far behind and failing in one batch: its own old slot is out of reach. */
  lemma LoneDegrades(p: Params, g: Band, s: PoolState, err: Error) returns (bs: seq<Batch>)
    requires New(s) && |s.members| == 1 && p.failThresh >= 2 && Roomy(p)
    ensures EndsDegraded(p, g, s, bs)
  {
    var e, hi := s.members[0], p.maxSlotLag + 2;
    var _, s1 := FirstStage(p, s, hi, 1);
    LoneFallsBehind(p, g, s1, hi, err);
    TwoBatches(p, s, [Succeed(e, hi)], [Succeed(e, 1), Fail(e, err)]);
    bs := [[Succeed(e, hi)], [Succeed(e, 1), Fail(e, err)]];
  }

  lemma TwoBatches(p: Params, s: PoolState, a: Batch, b: Batch)
    ensures Run(p, s, [a, b]) == ApplyBatch(p, ApplyBatch(p, s, a), b)
  {
    assert [a, b] == [a] + [b] && [a] == [] + [a];
    RunSnoc(p, s, [a], b);
    RunSnoc(p, s, [], a);
  }

  lemma LoneFallsBehind(p: Params, g: Band, s: PoolState, hi: uint64, err: Error)
    requires |s.members| == 1 && Staged(p, s, hi, 1, 1) && p.failThresh >= 2 && hi - 1 > p.maxSlotLag
    ensures DegradedAfter(p, g, ApplyBatch(p, s, [Succeed(s.members[0], 1), Fail(s.members[0], err)]))
  {
    var e := s.members[0];
    var b := [Succeed(e, 1), Fail(e, err)];
    SucceedThenFail(p, s, e, err);
    NobodyLeads(Replayed(p, s, b));
    var r, d := ApplyBatch(p, s, b), Draw(0, 0, true);
    SelectSound(p, g, r, null, d);
    assert Eligible(r, null, e);
    assert IsDegraded(p, g, r, d);
  }

  lemma SucceedThenFail(p: Params, s: PoolState, e: Endpoint, err: Error)
    requires e in s.members
    ensures Replayed(p, s, [Succeed(e, 1), Fail(e, err)]).health[e]
         == Record(p, Record(p, s.health[e], Success(1, 1)), Failure(err))
  {
    var b := [Succeed(e, 1), Fail(e, err)];
    assert b == [Succeed(e, 1)] + [Fail(e, err)];
    ProjectConcat([Succeed(e, 1)], [Fail(e, err)], e);
    ProjectOne(Succeed(e, 1), e);
    ProjectOne(Fail(e, err), e);
    ReplaySnoc(p, s.health[e], [Success(1, 1)], Failure(err));
    ReplayOne(p, s.health[e], Success(1, 1));
  }
}
