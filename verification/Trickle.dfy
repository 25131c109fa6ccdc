// One batch against the same results one at a time (router/types.go:266-287).
module Trickle {
  import opened GoTypes
  import opened Probes
  import opened Endpoints
  import opened PoolSpec
  import opened PoolRuns

  /** RecordProbe for each result in turn: the watermark is recomputed after every one. */
  function Trickled(p: Params, s: PoolState, results: seq<ProbeResult>): (r: PoolState)
    ensures r.members == s.members
  {
    if results == [] then s
    else
      var n := |results| - 1;
      ApplyBatch(p, Trickled(p, s, results[..n]), [results[n]])
  }

  /** No member is probed twice, as in a health cycle. */
  ghost predicate AtMostOnce(members: seq<Endpoint>, results: seq<ProbeResult>) {
    forall e | e in members :: |Project(results, e)| <= 1
  }

  /** The endpoints end up the same either way, even if some are probed more than once. */
  lemma SameEndpointStates(p: Params, s: PoolState, results: seq<ProbeResult>)
    ensures Trickled(p, s, results).health == ApplyBatch(p, s, results).health
  {
    var t, r := Trickled(p, s, results).health, ApplyBatch(p, s, results).health;
    forall e | e in s.members ensures t[e] == r[e] {
      TrickledReplays(p, s, results, e);
    }
    assert t.Keys == r.Keys;
  }

  lemma {:induction false} TrickledReplays(p: Params, s: PoolState, results: seq<ProbeResult>, e: Endpoint)
    requires e in s.members
    ensures Trickled(p, s, results).health[e] == Replay(p, s.health[e], Project(results, e))
  {
    if results != [] {
      var n := |results| - 1;
      TrickledReplays(p, s, results[..n], e);
      ProjectOne(results[n], e);
      assert Project(results, e) == Project(results[..n], e) + Project([results[n]], e);
      ReplayConcat(p, s.health[e], Project(results[..n], e), Project([results[n]], e));
    }
  }

  // ---- Order inside a batch ----

  /** Main result: with distinct endpoints the order of the results in a batch does not matter. */
  lemma BatchOrderIrrelevant(p: Params, s: PoolState, a: seq<ProbeResult>, b: seq<ProbeResult>)
    requires multiset(a) == multiset(b) && AtMostOnce(s.members, a)
    ensures ApplyBatch(p, s, a) == ApplyBatch(p, s, b)
  {
    forall e | e in s.members ensures Project(a, e) == Project(b, e) {
      ProjectPermuted(a, b, e);
      ShortPermutation(Project(a, e), Project(b, e));
    }
    SameProjections(p, s, a, b);
  }

  lemma SameProjections(p: Params, s: PoolState, a: seq<ProbeResult>, b: seq<ProbeResult>)
    requires forall e | e in s.members :: Project(a, e) == Project(b, e)
    ensures ApplyBatch(p, s, a) == ApplyBatch(p, s, b)
  {
    var x, y := ApplyBatch(p, s, a).health, ApplyBatch(p, s, b).health;
    forall e | e in s.members ensures x[e] == y[e] {
      assert Project(a, e) == Project(b, e);
    }
    assert x.Keys == y.Keys;
    assert x == y;
  }

  lemma ShortPermutation<T>(a: seq<T>, b: seq<T>)
    requires multiset(a) == multiset(b) && |a| <= 1
    ensures a == b
  {
    assert |multiset(a)| == |a| && |multiset(b)| == |b|;
    if |a| == 1 {
      assert a[0] in multiset(b);
    }
  }

  lemma {:induction false} ProjectPermuted(a: seq<ProbeResult>, b: seq<ProbeResult>, e: Endpoint)
    requires multiset(a) == multiset(b)
    ensures multiset(Project(a, e)) == multiset(Project(b, e))
  {
    if a == [] {
      assert |multiset(b)| == |b| == 0;
    } else {
      var n := |a| - 1;
      assert a[n] in multiset(b);
      var k :| 0 <= k < |b| && b[k] == a[n];
      WithoutOne(a, n);
      WithoutOne(b, k);
      ProjectPermuted(a[..n] + a[n + 1..], b[..k] + b[k + 1..], e);
      ProjectWithoutOne(a, n, e);
      ProjectWithoutOne(b, k, e);
    }
  }

  lemma WithoutOne<T>(a: seq<T>, k: nat)
    requires k < |a|
    ensures multiset(a[..k] + a[k + 1..]) == multiset(a) - multiset{a[k]}
  {
    assert a == a[..k] + [a[k]] + a[k + 1..];
  }

  lemma ProjectWithoutOne(a: seq<ProbeResult>, k: nat, e: Endpoint)
    requires k < |a|
    ensures multiset(Project(a, e)) ==
            multiset(Project(a[..k] + a[k + 1..], e)) + multiset(Project([a[k]], e))
  {
    assert a == a[..k] + ([a[k]] + a[k + 1..]);
    ProjectConcat(a[..k], [a[k]] + a[k + 1..], e);
    ProjectConcat([a[k]], a[k + 1..], e);
    ProjectConcat(a[..k], a[k + 1..], e);
  }

  // ---- The watermark ----

  /** Result k is the last one about an endpoint that was live with a slot before the batch. */
  ghost predicate LastLeader(s: PoolState, results: seq<ProbeResult>, k: int) {
    && 0 <= k < |results|
    && WasLeading(s, results[k])
    && forall j | k < j < |results| :: !WasLeading(s, results[j])
  }

  predicate WasLeading(s: PoolState, r: ProbeResult) {
    r.endpoint in s.members && LiveSlot(s.health[r.endpoint]) > 0
  }

  /** Main result: trickling moves the watermark to where the batch moves it exactly when some endpoint
      ends live with a slot, or no endpoint that was is probed, or the one of them that is probed last
      was holding the watermark. */
  lemma WatermarkAgrees(p: Params, s: PoolState, results: seq<ProbeResult>)
    requires HeadIsWatermark(s) && AtMostOnce(s.members, results)
    ensures Trickled(p, s, results).maxSlot == ApplyBatch(p, s, results).maxSlot <==>
            || Head(ApplyBatch(p, s, results)) > 0
            || forall k | LastLeader(s, results, k) :: s.health[results[k].endpoint].slot == s.maxSlot
  {
    TrickledHead(p, s, results);
    assert results[..|results|] == results && results[..0] == [];
    if Head(ApplyBatch(p, s, results)) == 0 {
      if k :| LastLeader(s, results, k) {
        HeadAtLastLeader(p, s, results, k);
        WatermarkStays(p, s, results, k, |results|);
        forall j | LastLeader(s, results, j) ensures j == k {}
      } else {
        forall k | 0 <= k < |results| ensures !WasLeading(s, results[k]) {
          NotLeading(s, results, k);
        }
        WatermarkStays(p, s, results, 0, |results|);
      }
    }
  }

  lemma TrickledHead(p: Params, s: PoolState, results: seq<ProbeResult>)
    requires HeadIsWatermark(s)
    ensures Head(Trickled(p, s, results)) == Head(ApplyBatch(p, s, results))
    ensures HeadIsWatermark(Trickled(p, s, results))
  {
    SameEndpointStates(p, s, results);
  }

  lemma {:induction false} NotLeading(s: PoolState, results: seq<ProbeResult>, k: nat)
    requires k < |results|
    requires forall j :: !LastLeader(s, results, j)
    ensures !WasLeading(s, results[k])
    decreases |results| - k
  {
    forall j | k < j < |results| ensures !WasLeading(s, results[j]) {
      NotLeading(s, results, j);
    }
    assert !LastLeader(s, results, k);
  }

  ghost predicate Probed(results: seq<ProbeResult>, e: Endpoint) {
    exists k :: 0 <= k < |results| && results[k].endpoint == e
  }

  lemma {:induction false} ProjectEmpty(results: seq<ProbeResult>, e: Endpoint)
    ensures Project(results, e) == [] <==> !Probed(results, e)
  {
    if results != [] {
      var n := |results| - 1;
      ProjectEmpty(results[..n], e);
      if results[n].endpoint == e {
        assert Probed(results, e);
      } else {
        assert Probed(results[..n], e) <==> Probed(results, e) by {
          if k :| 0 <= k < |results| && results[k].endpoint == e {
            assert results[..n][k].endpoint == e;
          }
          if k :| 0 <= k < n && results[..n][k].endpoint == e {
            assert results[k].endpoint == e;
          }
        }
      }
    }
  }

  lemma ProjectSplit(results: seq<ProbeResult>, k: nat, e: Endpoint)
    requires k <= |results|
    ensures Project(results, e) == Project(results[..k], e) + Project(results[k..], e)
  {
    ProjectConcat(results[..k], results[k..], e);
    assert results[..k] + results[k..] == results;
  }

  /** If nobody ends live with a slot, then after k results only the endpoints still to be probed can
      be, and those are as they were. */
  lemma StillToProbe(p: Params, s: PoolState, results: seq<ProbeResult>, k: nat, e: Endpoint)
    requires AtMostOnce(s.members, results) && k <= |results| && e in s.members
    requires Head(ApplyBatch(p, s, results)) == 0
    ensures LiveSlot(Trickled(p, s, results[..k]).health[e]) ==
            if Probed(results[k..], e) then LiveSlot(s.health[e]) else 0
  {
    var r := ApplyBatch(p, s, results);
    LiveMaxIsMaximum(r.members, r.health);
    TrickledReplays(p, s, results[..k], e);
    ProjectSplit(results, k, e);
    ProjectEmpty(results[k..], e);
    if Probed(results[k..], e) {
      assert Project(results[..k], e) == [];
    } else {
      assert Project(results, e) == Project(results[..k], e);
    }
  }

  /** Just before the last former leader is probed, it alone is live with a slot. */
  lemma HeadAtLastLeader(p: Params, s: PoolState, results: seq<ProbeResult>, k: nat)
    requires HeadIsWatermark(s) && AtMostOnce(s.members, results)
    requires Head(ApplyBatch(p, s, results)) == 0 && LastLeader(s, results, k)
    ensures Trickled(p, s, results[..k]).maxSlot == s.health[results[k].endpoint].slot
  {
    var e, t := results[k].endpoint, Trickled(p, s, results[..k]);
    TrickledHead(p, s, results[..k]);
    forall o | o in s.members ensures LiveSlot(t.health[o]) == if o == e then LiveSlot(s.health[e]) else 0 {
      StillToProbe(p, s, results, k, o);
      LaterAreNotLeading(s, results, k, o);
    }
    OnlyOneLive(t, e);
  }

  lemma LaterAreNotLeading(s: PoolState, results: seq<ProbeResult>, k: nat, o: Endpoint)
    requires LastLeader(s, results, k) && o in s.members
    ensures Probed(results[k..], results[k].endpoint)
    ensures o != results[k].endpoint && Probed(results[k..], o) ==> LiveSlot(s.health[o]) == 0
  {
    assert results[k..][0] == results[k];
    if o != results[k].endpoint && Probed(results[k..], o) {
      var j :| 0 <= j < |results[k..]| && results[k..][j].endpoint == o;
      assert !WasLeading(s, results[k + j]);
    }
  }

  lemma OnlyOneLive(t: PoolState, e: Endpoint)
    requires e in t.members && LiveSlot(t.health[e]) > 0
    requires forall o | o in t.members && o != e :: LiveSlot(t.health[o]) == 0
    ensures Head(t) == LiveSlot(t.health[e])
  {
    LiveMaxIsMaximum(t.members, t.health);
  }

  /** Once no former leader is left to be probed, the watermark stays where it is. */
  lemma {:induction false} WatermarkStays(p: Params, s: PoolState, results: seq<ProbeResult>, from: nat, k: nat)
    requires AtMostOnce(s.members, results) && Head(ApplyBatch(p, s, results)) == 0
    requires from <= k <= |results|
    requires forall j | from < j < |results| :: !WasLeading(s, results[j])
    ensures Trickled(p, s, results[..k]).maxSlot == Trickled(p, s, results[..from]).maxSlot
  {
    if k > from {
      WatermarkStays(p, s, results, from, k - 1);
      NobodyLeads(p, s, results, k);
      HeadlessStep(p, s, results[..k]);
      assert results[..k][..k - 1] == results[..k - 1];
    }
  }

  lemma HeadlessStep(p: Params, s: PoolState, results: seq<ProbeResult>)
    requires results != [] && Head(Trickled(p, s, results)) == 0
    ensures Trickled(p, s, results).maxSlot == Trickled(p, s, results[..|results| - 1]).maxSlot
  {
  }

  lemma NobodyLeads(p: Params, s: PoolState, results: seq<ProbeResult>, k: nat)
    requires AtMostOnce(s.members, results) && Head(ApplyBatch(p, s, results)) == 0
    requires k <= |results|
    requires forall j | k <= j < |results| :: !WasLeading(s, results[j])
    ensures Head(Trickled(p, s, results[..k])) == 0
  {
    var t := Trickled(p, s, results[..k]);
    forall o | o in s.members ensures LiveSlot(t.health[o]) == 0 {
      StillToProbe(p, s, results, k, o);
      if Probed(results[k..], o) {
        var j :| 0 <= j < |results[k..]| && results[k..][j].endpoint == o;
        assert !WasLeading(s, results[k + j]);
      }
    }
    LiveMaxIsMaximum(t.members, t.health);
  }

  /** They can differ: both endpoints of a new pool report, then both fail, the leader first. By the time
      the second failure is recorded the trickled watermark has moved down to the runner-up. */
  lemma WatermarkCanDiffer(p: Params, s: PoolState, e: Endpoint, o: Endpoint, err: Error)
    requires New(s) && e != o && s.members == [e, o]
    ensures var s1 := ApplyBatch(p, s, [ProbeResult(e, 900, 1, None), ProbeResult(o, 800, 1, None)]);
            var results := [ProbeResult(e, 0, 1, Some(err)), ProbeResult(o, 0, 1, Some(err))];
            ApplyBatch(p, s1, results).maxSlot != Trickled(p, s1, results).maxSlot
  {
    var s1 := TwoResults(p, s, e, o, ProbeResult(e, 900, 1, None), ProbeResult(o, 800, 1, None));
    HeadOfTwo(s1, e, o);
    BothLeadersFail(p, s1, e, o, ProbeResult(e, 0, 1, Some(err)), ProbeResult(o, 0, 1, Some(err)));
  }

  lemma BothLeadersFail(p: Params, s: PoolState, e: Endpoint, o: Endpoint, re: ProbeResult, ro: ProbeResult)
    requires HeadIsWatermark(s) && e != o && s.members == [e, o] && re.endpoint == e && ro.endpoint == o
    requires re.err.Some? && ro.err.Some?
    requires 0 < LiveSlot(s.health[o]) < LiveSlot(s.health[e]) == s.maxSlot
    ensures ApplyBatch(p, s, [re, ro]).maxSlot != Trickled(p, s, [re, ro]).maxSlot
  {
    var r := TwoResults(p, s, e, o, re, ro);
    HeadOfTwo(r, e, o);
    forall m | m in s.members ensures |Project([re, ro], m)| <= 1 {
      ProjectPair(re, ro, m);
    }
    WatermarkAgrees(p, s, [re, ro]);
    assert LastLeader(s, [re, ro], 1);
  }
}
