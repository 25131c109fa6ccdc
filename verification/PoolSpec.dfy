// The pool on values (router/types.go:75-90): what a batch does to it and what a selection reads.
module PoolSpec {
  import opened GoTypes
  import opened Probes
  import opened Sampler
  import opened Endpoints

  datatype RawState = State(members: seq<Endpoint>, health: map<Endpoint, Health>, maxSlot: uint64)

  predicate NoneTwice(es: seq<Endpoint>) {
    forall i, j | 0 <= i < j < |es| :: es[i] != es[j]
  }

  predicate WellFormed(s: RawState) {
    && NoneTwice(s.members)
    && s.health.Keys == set e | e in s.members
  }

  type PoolState = s: RawState | WellFormed(s) witness State([], map[], 0)

  // ---- Writing ----

  /** Healthy and without error on its last probe: only such endpoints set the watermark. */
  predicate Live(h: Health) {
    h.healthy && h.lastErr.None?
  }

  function LiveSlot(h: Health): uint64 {
    if Live(h) then h.slot else 0
  }

  function LiveMax(members: seq<Endpoint>, health: map<Endpoint, Health>): uint64
    requires forall e | e in members :: e in health
  {
    if members == [] then 0
    else
      var n := |members| - 1;
      var m, s := LiveMax(members[..n], health), LiveSlot(health[members[n]]);
      if s > m then s else m
  }

  function Head(s: PoolState): uint64 {
    LiveMax(s.members, s.health)
  }

  lemma {:induction false} LiveMaxIsMaximum(members: seq<Endpoint>, health: map<Endpoint, Health>)
    requires forall e | e in members :: e in health
    ensures forall e | e in members :: LiveSlot(health[e]) <= LiveMax(members, health)
    ensures LiveMax(members, health) > 0 ==> exists e :: e in members && LiveSlot(health[e]) == LiveMax(members, health)
  {
    if members != [] {
      LiveMaxIsMaximum(members[..|members| - 1], health);
      assert members[|members| - 1] in members;
    }
  }

  /** Every endpoint replays its own results. */
  function Replayed(p: Params, s: PoolState, results: seq<ProbeResult>): PoolState {
    State(s.members, map e | e in s.members :: Replay(p, s.health[e], Project(results, e)), s.maxSlot)
  }

  /** The watermark moves to the head, unless no live endpoint has a slot. */
  function Recomputed(s: PoolState): PoolState {
    State(s.members, s.health, if Head(s) > 0 then Head(s) else s.maxSlot)
  }

  /** One full cycle of results in one step. */
  function ApplyBatch(p: Params, s: PoolState, results: seq<ProbeResult>): (r: PoolState)
    ensures r.members == s.members
  {
    Recomputed(Replayed(p, s, results))
  }

  /** What a batch leaves behind: every member has replayed its own results, and the watermark is the
      highest slot of a live member, or what it was if no live member has one. */
  lemma BatchMeaning(p: Params, s: PoolState, results: seq<ProbeResult>)
    ensures var r := ApplyBatch(p, s, results);
            && (forall e | e in s.members :: r.health[e] == Replay(p, s.health[e], Project(results, e)))
            && (forall e | e in s.members :: LiveSlot(r.health[e]) <= r.maxSlot)
            && ((exists e :: e in s.members && LiveSlot(r.health[e]) == r.maxSlot > 0)
                || (r.maxSlot == s.maxSlot && forall e | e in s.members :: LiveSlot(r.health[e]) == 0))
  {
    var r := ApplyBatch(p, s, results);
    LiveMaxIsMaximum(r.members, r.health);
  }

  /** Healthy, and the last probe succeeded. */
  ghost predicate Sets(h: Health, slot: uint64) {
    h.healthy && h.lastErr == None && h.slot == slot
  }

  /** The watermark after a batch in plain terms: the highest positive slot of an endpoint that is healthy
      and whose last probe succeeded, or what it was if there is none. */
  lemma WatermarkMeaning(p: Params, s: PoolState, results: seq<ProbeResult>)
    ensures var r := ApplyBatch(p, s, results);
            if exists e :: e in s.members && r.health[e].slot > 0 && Sets(r.health[e], r.health[e].slot) then
              && (exists e :: e in s.members && Sets(r.health[e], r.maxSlot))
              && (forall e | e in s.members && Sets(r.health[e], r.health[e].slot) :: r.health[e].slot <= r.maxSlot)
            else r.maxSlot == s.maxSlot
  {
    var r := ApplyBatch(p, s, results);
    BatchMeaning(p, s, results);
    if e :| e in s.members && LiveSlot(r.health[e]) == r.maxSlot > 0 {
      assert Sets(r.health[e], r.maxSlot);
    }
  }

  // ---- Reading ----

  /** How far behind the watermark an endpoint is; 0 if it never reported a slot. */
  function Lag(maxSlot: uint64, h: Health): uint64 {
    if h.slot == 0 || h.slot >= maxSlot then 0 else maxSlot - h.slot
  }

  /** The lag makes up what is missing to the watermark, for an endpoint that has a slot at all. */
  lemma LagMeaning(maxSlot: uint64, h: Health)
    ensures 0 < h.slot <= maxSlot ==> h.slot + Lag(maxSlot, h) == maxSlot
    ensures h.slot == 0 || h.slot > maxSlot ==> Lag(maxSlot, h) == 0
  {
  }

  predicate Eligible(s: PoolState, exclude: Endpoint?, e: Endpoint) {
    e in s.members && e != exclude && s.health[e].healthy
  }

  predicate Current(p: Params, s: PoolState, e: Endpoint)
    requires e in s.members
  {
    Lag(s.maxSlot, s.health[e]) <= p.maxSlotLag
  }

  /** Some endpoint a selection may fall on is close enough to the watermark. */
  ghost predicate SomeCurrent(p: Params, s: PoolState, exclude: Endpoint?) {
    exists o :: o in s.members && Eligible(s, exclude, o) && Current(p, s, o)
  }

  /** The eligible endpoints among the first n members that are current, or that are not. */
  function Candidates(p: Params, s: PoolState, exclude: Endpoint?, n: nat, current: bool): (r: seq<Endpoint>)
    requires n <= |s.members|
    ensures forall e | e in r :: e in s.members
  {
    if n == 0 then []
    else
      var e := s.members[n - 1];
      Candidates(p, s, exclude, n - 1, current) +
      if Eligible(s, exclude, e) && Current(p, s, e) == current then [e] else []
  }

  /** The two lists after the first n members. */
  ghost predicate SplitAt(p: Params, s: PoolState, exclude: Endpoint?, n: nat,
                          current: seq<Endpoint>, lagging: seq<Endpoint>)
    requires n <= |s.members|
  {
    current == Candidates(p, s, exclude, n, true) && lagging == Candidates(p, s, exclude, n, false)
  }

  lemma SplitNext(p: Params, s: PoolState, exclude: Endpoint?, n: nat,
                  current: seq<Endpoint>, lagging: seq<Endpoint>)
    requires n < |s.members| && SplitAt(p, s, exclude, n, current, lagging)
    ensures var e := s.members[n];
            if !Eligible(s, exclude, e) then SplitAt(p, s, exclude, n + 1, current, lagging)
            else if Current(p, s, e) then SplitAt(p, s, exclude, n + 1, current + [e], lagging)
            else SplitAt(p, s, exclude, n + 1, current, lagging + [e])
  {
  }

  lemma {:induction false} CandidatesExactly(p: Params, s: PoolState, exclude: Endpoint?, n: nat, current: bool)
    requires n <= |s.members|
    ensures var c := Candidates(p, s, exclude, n, current);
            forall e :: e in c <==> e in s.members[..n] && Eligible(s, exclude, e) && Current(p, s, e) == current
  {
    if n > 0 {
      CandidatesExactly(p, s, exclude, n - 1, current);
      assert s.members[..n] == s.members[..n - 1] + [s.members[n - 1]];
    }
  }

  lemma {:induction false} CandidatesDistinct(p: Params, s: PoolState, exclude: Endpoint?, n: nat, current: bool)
    requires n <= |s.members|
    ensures NoneTwice(Candidates(p, s, exclude, n, current))
  {
    if n > 0 {
      CandidatesDistinct(p, s, exclude, n - 1, current);
      var c, e := Candidates(p, s, exclude, n - 1, current), s.members[n - 1];
      assert e !in c by {
        CandidatesExactly(p, s, exclude, n - 1, current);
      }
      NoneTwiceSnoc(c, e);
    }
  }

  lemma NoneTwiceSnoc(es: seq<Endpoint>, e: Endpoint)
    requires NoneTwice(es) && e !in es
    ensures NoneTwice(es + [e])
  {
  }

  function Latencies(s: PoolState, c: seq<Endpoint>): (r: seq<int>)
    requires forall e | e in c :: e in s.members
    ensures |r| == |c|
  {
    seq(|c|, i requires 0 <= i < |c| => assert c[i] in c; Effective(s.health[c[i]].ewma))
  }

  datatype Selection = NoEndpoints | Selected(endpoint: Endpoint, degraded: bool)

  function Select(p: Params, g: Band, s: PoolState, exclude: Endpoint?, d: Draw): Selection {
    var current := Candidates(p, s, exclude, |s.members|, true);
    var lagging := Candidates(p, s, exclude, |s.members|, false);
    if current != [] then Selected(current[Pick(g, Latencies(s, current), d)], false)
    else if lagging != [] then Selected(lagging[Pick(g, Latencies(s, lagging), d)], true)
    else NoEndpoints
  }

  /** Further behind the watermark than is allowed. */
  ghost predicate Behind(p: Params, s: PoolState, e: Endpoint)
    requires e in s.members
  {
    0 < s.health[e].slot && s.health[e].slot + p.maxSlotLag < s.maxSlot
  }

  /** The answer of a selection in plain terms. */
  ghost predicate RightAnswer(p: Params, s: PoolState, exclude: Endpoint?, r: Selection) {
    match r
    case NoEndpoints => forall o | o in s.members && s.health[o].healthy :: o == exclude
    case Selected(e, degraded) =>
      && e in s.members && s.health[e].healthy && e != exclude
      && (degraded <==> Behind(p, s, e))
      && (degraded <==> forall o | o in s.members && s.health[o].healthy && o != exclude :: Behind(p, s, o))
  }

  /** Main result: what a selection answers, in terms of health flags and slots alone. */
  lemma SelectMeaning(p: Params, g: Band, s: PoolState, exclude: Endpoint?, d: Draw)
    ensures RightAnswer(p, s, exclude, Select(p, g, s, exclude, d))
  {
    SelectSound(p, g, s, exclude, d);
    forall o | o in s.members ensures Current(p, s, o) <==> !Behind(p, s, o) {
      LagMeaning(s.maxSlot, s.health[o]);
    }
    forall o | o in s.members ensures Eligible(s, exclude, o) <==> s.health[o].healthy && o != exclude {}
  }

  /** Sound and complete, in every pool state, for every band and every draw. */
  lemma SelectSound(p: Params, g: Band, s: PoolState, exclude: Endpoint?, d: Draw)
    ensures match Select(p, g, s, exclude, d)
            case NoEndpoints => forall e :: !Eligible(s, exclude, e)
            case Selected(e, degraded) =>
              && Eligible(s, exclude, e)
              && (degraded <==> Lag(s.maxSlot, s.health[e]) > p.maxSlotLag)
              && (degraded <==> !SomeCurrent(p, s, exclude))
  {
    var n := |s.members|;
    assert s.members[..n] == s.members;
    CandidatesExactly(p, s, exclude, n, true);
    CandidatesExactly(p, s, exclude, n, false);
    var current, lagging := Candidates(p, s, exclude, n, true), Candidates(p, s, exclude, n, false);
    forall e | Eligible(s, exclude, e) ensures e in current || e in lagging {}
    if current != [] {
      assert current[Pick(g, Latencies(s, current), d)] in current;
    } else if lagging != [] {
      assert lagging[Pick(g, Latencies(s, lagging), d)] in lagging;
    }
  }

  /** The endpoints a selection samples from: the current ones, or all eligible ones if none is. */
  ghost predicate InTier(p: Params, s: PoolState, exclude: Endpoint?, e: Endpoint) {
    && Eligible(s, exclude, e)
    && (Current(p, s, e) || !SomeCurrent(p, s, exclude))
  }

  ghost predicate Rival(p: Params, g: Band, s: PoolState, exclude: Endpoint?, e: Endpoint, o: Endpoint)
    requires e in s.members
  {
    && InTier(p, s, exclude, o)
    && o != e
    && !Clear(g, Effective(s.health[o].ewma), Effective(s.health[e].ewma))
  }

  /** Alone among the endpoints sampled from, or with a competitor that does not clearly beat it. */
  ghost predicate HasChance(p: Params, g: Band, s: PoolState, exclude: Endpoint?, e: Endpoint) {
    && InTier(p, s, exclude, e)
    && ((forall o | o in s.members && InTier(p, s, exclude, o) :: o == e)
        || exists o :: o in s.members && Rival(p, g, s, exclude, e, o))
  }

  ghost predicate RoutedTo(p: Params, g: Band, s: PoolState, exclude: Endpoint?, e: Endpoint, d: Draw) {
    Select(p, g, s, exclude, d).Selected? && Select(p, g, s, exclude, d).endpoint == e
  }

  /** Which endpoint some draw routes to: one that is sampled from and either is alone there or has a
      competitor that does not clearly beat it. */
  lemma SelectReaches(p: Params, g: Band, s: PoolState, exclude: Endpoint?, e: Endpoint)
    ensures (exists d :: RoutedTo(p, g, s, exclude, e, d)) <==> HasChance(p, g, s, exclude, e)
  {
    if d :| RoutedTo(p, g, s, exclude, e, d) {
      RoutedHasChance(p, g, s, exclude, e, d);
    }
    if HasChance(p, g, s, exclude, e) {
      var d := ChanceIsTaken(p, g, s, exclude, e);
    }
  }

  lemma RoutedHasChance(p: Params, g: Band, s: PoolState, exclude: Endpoint?, e: Endpoint, d: Draw)
    requires RoutedTo(p, g, s, exclude, e, d)
    ensures HasChance(p, g, s, exclude, e)
  {
    var c := Tier(p, s, exclude);
    var lat := Latencies(s, c);
    TierExactly(p, s, exclude);
    SelectPicks(p, g, s, exclude, d);
    var x := Pick(g, lat, d);
    assert c[x] in c;
    if |c| > 1 {
      PickIsADraw(g, lat, d);
      ChosenAtAll(g, lat, x);
      var k: nat :| k < |lat| && k != x && !Clear(g, lat[k], lat[x]);
      assert c[k] in c && Rival(p, g, s, exclude, e, c[k]);
    }
  }

  lemma ChanceIsTaken(p: Params, g: Band, s: PoolState, exclude: Endpoint?, e: Endpoint) returns (d: Draw)
    requires HasChance(p, g, s, exclude, e)
    ensures RoutedTo(p, g, s, exclude, e, d)
  {
    var c := Tier(p, s, exclude);
    var lat := Latencies(s, c);
    TierExactly(p, s, exclude);
    var x: nat :| x < |c| && c[x] == e;
    if |c| == 1 {
      d := Draw(0, 0, true);
    } else {
      TierHasAnother(c, x);
      var o :| o in s.members && Rival(p, g, s, exclude, e, o);
      var k: nat :| k < |c| && c[k] == o;
      assert !Clear(g, lat[k], lat[x]);
      ChosenAtAll(g, lat, x);
      d :| d in Draws(|lat|) && Pick(g, lat, d) == x;
    }
    SelectPicks(p, g, s, exclude, d);
  }

  function Tier(p: Params, s: PoolState, exclude: Endpoint?): (r: seq<Endpoint>)
    ensures forall e | e in r :: e in s.members
  {
    var current := Candidates(p, s, exclude, |s.members|, true);
    if current != [] then current else Candidates(p, s, exclude, |s.members|, false)
  }

  lemma TierExactly(p: Params, s: PoolState, exclude: Endpoint?)
    ensures var c := Tier(p, s, exclude);
            && (forall e :: e in c <==> InTier(p, s, exclude, e))
            && NoneTwice(c)
  {
    var n := |s.members|;
    assert s.members[..n] == s.members;
    CandidatesExactly(p, s, exclude, n, true);
    CandidatesExactly(p, s, exclude, n, false);
    CandidatesDistinct(p, s, exclude, n, true);
    CandidatesDistinct(p, s, exclude, n, false);
    var current := Candidates(p, s, exclude, n, true);
    if current != [] {
      assert current[0] in current && Eligible(s, exclude, current[0]) && Current(p, s, current[0]);
      forall e ensures e in current <==> InTier(p, s, exclude, e) {}
    } else {
      forall o | o in s.members && Eligible(s, exclude, o) ensures !Current(p, s, o) {
        assert o !in current;
      }
    }
  }

  lemma TierHasAnother(c: seq<Endpoint>, x: nat)
    requires |c| >= 2 && x < |c| && NoneTwice(c)
    ensures exists o :: o in c && o != c[x]
  {
    var k := if x == 0 then 1 else 0;
    assert c[k] in c && c[k] != c[x];
  }

  lemma SelectPicks(p: Params, g: Band, s: PoolState, exclude: Endpoint?, d: Draw)
    ensures var c := Tier(p, s, exclude);
            && (c == [] <==> Select(p, g, s, exclude, d) == NoEndpoints)
            && (c != [] ==> Select(p, g, s, exclude, d).endpoint == c[Pick(g, Latencies(s, c), d)])
  {
  }

  // ---- The law of the sampler, for selections ----

  /** The draws with which a selection routes to e. */
  ghost function RoutesTo(p: Params, g: Band, s: PoolState, exclude: Endpoint?, e: Endpoint): set<Draw> {
    set d | d in Draws(|Tier(p, s, exclude)|) && RoutedTo(p, g, s, exclude, e, d)
  }

  ghost predicate Beats(g: Band, s: PoolState, a: Endpoint, b: Endpoint)
    requires a in s.members && b in s.members
  {
    Clear(g, Effective(s.health[a].ewma), Effective(s.health[b].ewma))
  }

  ghost function SlowerRivals(p: Params, g: Band, s: PoolState, exclude: Endpoint?, e: Endpoint): set<Endpoint>
    requires e in s.members
  {
    set o | o in s.members && InTier(p, s, exclude, o) && Beats(g, s, e, o)
  }

  ghost function TiedRivals(p: Params, g: Band, s: PoolState, exclude: Endpoint?, e: Endpoint): set<Endpoint>
    requires e in s.members
  {
    set o | o in s.members && InTier(p, s, exclude, o) && o != e && !Beats(g, s, e, o) && !Beats(g, s, o, e)
  }

  /** Main result: with N >= 2 endpoints to sample from, 2N(N-1) draws, a selection routes to each of them
      for four draws per rival it clearly beats and two per rival it ties with. */
  lemma SelectLaw(p: Params, g: Band, s: PoolState, exclude: Endpoint?, e: Endpoint)
    requires InTier(p, s, exclude, e) && |Tier(p, s, exclude)| >= 2
    ensures |RoutesTo(p, g, s, exclude, e)|
         == 4 * |SlowerRivals(p, g, s, exclude, e)| + 2 * |TiedRivals(p, g, s, exclude, e)|
  {
    var c := Tier(p, s, exclude);
    var lat := Latencies(s, c);
    TierExactly(p, s, exclude);
    var x: nat :| x < |c| && c[x] == e;
    RoutesAreWins(p, g, s, exclude, x);
    WinLaw(g, lat, x);
    SlowerCount(p, g, s, exclude, x);
    TiedCount(p, g, s, exclude, x);
  }

  lemma SlowerCount(p: Params, g: Band, s: PoolState, exclude: Endpoint?, x: nat)
    requires x < |Tier(p, s, exclude)|
    ensures var c := Tier(p, s, exclude);
            |Slower(g, Latencies(s, c), x)| == |SlowerRivals(p, g, s, exclude, c[x])|
  {
    var c := Tier(p, s, exclude);
    var places, rivals := Slower(g, Latencies(s, c), x), SlowerRivals(p, g, s, exclude, c[x]);
    TierExactly(p, s, exclude);
    forall k | k in places ensures c[k] in rivals {
      assert c[k] in c;
    }
    RivalsAt(c, places, rivals);
  }

  lemma TiedCount(p: Params, g: Band, s: PoolState, exclude: Endpoint?, x: nat)
    requires x < |Tier(p, s, exclude)|
    ensures var c := Tier(p, s, exclude);
            |Tied(g, Latencies(s, c), x)| == |TiedRivals(p, g, s, exclude, c[x])|
  {
    var c := Tier(p, s, exclude);
    var places, rivals := Tied(g, Latencies(s, c), x), TiedRivals(p, g, s, exclude, c[x]);
    TierExactly(p, s, exclude);
    forall k | k in places ensures c[k] in rivals {
      assert c[k] in c;
    }
    RivalsAt(c, places, rivals);
  }

  /** The latency an endpoint is judged by: the maximum as long as it has none. */
  ghost function Judged(s: PoolState, e: Endpoint): int
    requires e in s.members
  {
    if s.health[e].ewma == 0 then 0x7FFF_FFFF_FFFF_FFFF else s.health[e].ewma
  }

  /** With the band as it is meant: an endpoint beats those more than five fourths as slow, and no others. */
  lemma BeatsMeaning(s: PoolState, a: Endpoint, b: Endpoint)
    requires a in s.members && b in s.members && s.health[a].ewma >= 0 && s.health[b].ewma >= 0
    ensures Beats(NearTie, s, a, b) <==> 5 * Judged(s, a) < 4 * Judged(s, b)
  {
    BandMeaning(Judged(s, a), Judged(s, b), true);
  }

  /** Those sampled from that are more than five fourths as slow as e. */
  ghost function MuchSlower(p: Params, s: PoolState, exclude: Endpoint?, e: Endpoint): set<Endpoint>
    requires e in s.members
  {
    set o | o in s.members && InTier(p, s, exclude, o) && 5 * Judged(s, e) < 4 * Judged(s, o)
  }

  /** Those sampled from, other than e, that are neither that much slower nor that much faster. */
  ghost function Comparable(p: Params, s: PoolState, exclude: Endpoint?, e: Endpoint): set<Endpoint>
    requires e in s.members
  {
    set o | o in s.members && InTier(p, s, exclude, o) && o != e
            && 5 * Judged(s, e) >= 4 * Judged(s, o) && 5 * Judged(s, o) >= 4 * Judged(s, e)
  }

  ghost predicate Clocked(s: PoolState) {
    forall o | o in s.members :: s.health[o].ewma >= 0
  }

  /** The law with that band, in terms of the latencies alone. */
  lemma SelectLawMeaning(p: Params, s: PoolState, exclude: Endpoint?, e: Endpoint)
    requires Clocked(s) && InTier(p, s, exclude, e) && |Tier(p, s, exclude)| >= 2
    ensures |RoutesTo(p, NearTie, s, exclude, e)|
         == 4 * |MuchSlower(p, s, exclude, e)| + 2 * |Comparable(p, s, exclude, e)|
  {
    SelectLaw(p, NearTie, s, exclude, e);
    SlowerMeaning(p, s, exclude, e);
    TiedMeaning(p, s, exclude, e);
  }

  lemma SlowerMeaning(p: Params, s: PoolState, exclude: Endpoint?, e: Endpoint)
    requires Clocked(s) && e in s.members
    ensures SlowerRivals(p, NearTie, s, exclude, e) == MuchSlower(p, s, exclude, e)
  {
    forall o | o in s.members
      ensures o in SlowerRivals(p, NearTie, s, exclude, e) <==> o in MuchSlower(p, s, exclude, e)
    {
      BeatsMeaning(s, e, o);
    }
  }

  lemma TiedMeaning(p: Params, s: PoolState, exclude: Endpoint?, e: Endpoint)
    requires Clocked(s) && e in s.members
    ensures TiedRivals(p, NearTie, s, exclude, e) == Comparable(p, s, exclude, e)
  {
    forall o | o in s.members
      ensures o in TiedRivals(p, NearTie, s, exclude, e) <==> o in Comparable(p, s, exclude, e)
    {
      BeatsMeaning(s, e, o);
      BeatsMeaning(s, o, e);
    }
  }

  /** Which endpoints are sampled from, in terms of health flags and slots alone. */
  lemma TierMeaning(p: Params, s: PoolState, exclude: Endpoint?, e: Endpoint)
    requires e in s.members
    ensures InTier(p, s, exclude, e) <==>
            && s.health[e].healthy && e != exclude
            && (!Behind(p, s, e) || forall o | o in s.members && s.health[o].healthy && o != exclude :: Behind(p, s, o))
  {
    forall o | o in s.members ensures Current(p, s, o) <==> !Behind(p, s, o) {
      LagMeaning(s.maxSlot, s.health[o]);
    }
  }

  lemma RoutesAreWins(p: Params, g: Band, s: PoolState, exclude: Endpoint?, x: nat)
    requires x < |Tier(p, s, exclude)|
    ensures var c := Tier(p, s, exclude); RoutesTo(p, g, s, exclude, c[x]) == Wins(g, Latencies(s, c), x)
  {
    var c := Tier(p, s, exclude);
    TierExactly(p, s, exclude);
    forall d | d in Draws(|c|)
      ensures d in RoutesTo(p, g, s, exclude, c[x]) <==> d in Wins(g, Latencies(s, c), x)
    {
      SelectPicks(p, g, s, exclude, d);
    }
  }

  /** Distinct endpoints are as many as their places in the list. */
  lemma {:induction false} RivalsAt(c: seq<Endpoint>, places: set<nat>, rivals: set<Endpoint>)
    requires NoneTwice(c)
    requires forall k | k in places :: k < |c| && c[k] in rivals
    requires forall o | o in rivals :: exists k :: k in places && k < |c| && c[k] == o
    ensures |places| == |rivals|
    decreases places
  {
    if k :| k in places {
      RivalsAt(c, places - {k}, rivals - {c[k]});
    }
  }

  /** Reducing the raw numbers to their ranges does not change the outcome. */
  lemma PickIsADraw(g: Band, lat: seq<int>, d: Draw)
    requires |lat| >= 2
    ensures exists d' :: d' in Draws(|lat|) && Pick(g, lat, d') == Pick(g, lat, d)
  {
    var d' := Draw(IntN(d.i, |lat|), IntN(d.j, |lat| - 1), d.coin);
    assert d' in Draws(|lat|) && Pick(g, lat, d') == Pick(g, lat, d);
  }
}
