// The probe cycle (router/health_check.go:91-163): workers that finish in any order, a barrier, a
// cancellation check and one batched write. First as a step system over any sequence of events, then
// as the method that the program runs.
module HealthCheck {
  import opened GoTypes
  import opened Probes
  import opened Sampler
  import opened Endpoints
  import opened PoolSpec
  import opened PoolRuns
  import opened Degraded
  import opened PoolImpl

  /** What one probe call returned: slot, latency and error. */
  datatype Reading = Reading(slot: uint64, latency: Duration, err: Option<Error>)

  /** One worker's place in the result array; late records that the probe ended after cancellation. */
  datatype Slot = Pending | Done(result: ProbeResult, late: bool)

  datatype Phase =
    | Idle
    | Probing(slots: seq<Slot>)
    | Checked(slots: seq<Slot>)
    | Stopped

  /** The checker and the pool it writes; applied is the history of the cycles that were applied. */
  datatype Checker = Checker(pool: PoolState, phase: Phase, cancelled: bool, applied: seq<seq<Slot>>)

  datatype Event =
    | Begin
    | Finish(worker: nat, reading: Reading)
    | Check
    | Apply
    | Cancel
    | Stop

  predicate AllDone(slots: seq<Slot>) {
    forall k | 0 <= k < |slots| :: slots[k].Done?
  }

  function Results(slots: seq<Slot>): (b: Batch)
    requires AllDone(slots)
    ensures |b| == |slots|
  {
    seq(|slots|, k requires 0 <= k < |slots| => slots[k].result)
  }

  function Probe(e: Endpoint, r: Reading): ProbeResult {
    ProbeResult(e, r.slot, r.latency, r.err)
  }

  /** One step. An event that cannot happen in a state leaves it as it is. When the ticker and the
      cancellation are both ready, Run may still begin a cycle. */
  function Next(p: Params, c: Checker, ev: Event): Checker {
    match (c.phase, ev)
    case (_, Cancel) => c.(cancelled := true)
    case (Idle, Begin) =>
      if c.pool.members == [] then c
      else c.(phase := Probing(seq(|c.pool.members|, _ => Pending)))
    case (Idle, Stop) => if c.cancelled then c.(phase := Stopped) else c
    case (Probing(slots), Finish(k, r)) =>
      if k < |slots| && k < |c.pool.members| && slots[k].Pending?
      then c.(phase := Probing(slots[k := Done(Probe(c.pool.members[k], r), c.cancelled)]))
      else c
    case (Probing(slots), Check) =>
      if !AllDone(slots) then c
      else if c.cancelled then c.(phase := Idle)
      else c.(phase := Checked(slots))
    case (Checked(slots), Apply) =>
      if AllDone(slots)
      then Checker(ApplyBatch(p, c.pool, Results(slots)), Idle, c.cancelled, c.applied + [slots])
      else c
    case _ => c
  }

  function Exec(p: Params, c: Checker, evs: seq<Event>): Checker {
    if evs == [] then c else Next(p, Exec(p, c, evs[..|evs| - 1]), evs[|evs| - 1])
  }

  // ---- Whole batches ----

  /** A finished cycle: one result for every member, in order, none of them after cancellation. */
  ghost predicate Complete(members: seq<Endpoint>, slots: seq<Slot>) {
    && AllDone(slots)
    && |slots| == |members|
    && forall k | 0 <= k < |slots| :: slots[k].result.endpoint == members[k] && !slots[k].late
  }

  function Batches(applied: seq<seq<Slot>>): seq<Batch>
    requires forall k | 0 <= k < |applied| :: AllDone(applied[k])
  {
    seq(|applied|, k requires 0 <= k < |applied| => Results(applied[k]))
  }

  /** The pool is what these cycles, all of them complete, make of it. */
  ghost predicate WrittenBy(p: Params, start: PoolState, applied: seq<seq<Slot>>, pool: PoolState) {
    && pool.members == start.members
    && (forall k | 0 <= k < |applied| :: Complete(start.members, applied[k]))
    && Reached(p, start, Batches(applied), pool)
  }

  /** A worker writes only its own place, and what passes the check is complete. */
  ghost predicate InPhase(members: seq<Endpoint>, phase: Phase, cancelled: bool) {
    match phase
    case Probing(slots) =>
      && |slots| == |members|
      && forall k | 0 <= k < |slots| && slots[k].Done? ::
           slots[k].result.endpoint == members[k] && (slots[k].late ==> cancelled)
    case Checked(slots) => Complete(members, slots)
    case _ => true
  }

  ghost predicate Inv(p: Params, start: PoolState, c: Checker) {
    WrittenBy(p, start, c.applied, c.pool) && InPhase(start.members, c.phase, c.cancelled)
  }

  lemma InvNext(p: Params, start: PoolState, c: Checker, ev: Event)
    requires Inv(p, start, c)
    ensures Inv(p, start, Next(p, c, ev))
  {
    if ev.Apply? && c.phase.Checked? {
      ApplyKeeps(p, start, c.applied, c.pool, c.phase.slots);
    } else {
      PhaseNext(p, c, ev);
    }
  }

  lemma PhaseNext(p: Params, c: Checker, ev: Event)
    requires InPhase(c.pool.members, c.phase, c.cancelled) && !(ev.Apply? && c.phase.Checked?)
    ensures var r := Next(p, c, ev);
            InPhase(c.pool.members, r.phase, r.cancelled) && r.pool == c.pool && r.applied == c.applied
  {
  }

  lemma ApplyKeeps(p: Params, start: PoolState, applied: seq<seq<Slot>>, pool: PoolState, slots: seq<Slot>)
    requires WrittenBy(p, start, applied, pool) && Complete(start.members, slots)
    ensures WrittenBy(p, start, applied + [slots], ApplyBatch(p, pool, Results(slots)))
  {
    ReachedNext(p, start, Batches(applied), pool, Results(slots));
    BatchesSnoc(applied, slots);
  }

  lemma BatchesSnoc(applied: seq<seq<Slot>>, slots: seq<Slot>)
    requires AllDone(slots) && forall k | 0 <= k < |applied| :: AllDone(applied[k])
    ensures forall k | 0 <= k < |applied + [slots]| :: AllDone((applied + [slots])[k])
    ensures Batches(applied + [slots]) == Batches(applied) + [Results(slots)]
  {
  }

  /** Main result: whatever happens in whatever order, readers see the pool only as whole cycles leave
      it, each with one result per member, and no result of an applied cycle ended after cancellation. */
  lemma OnlyWholeCycles(p: Params, c: Checker, evs: seq<Event>)
    requires c.phase.Idle? && c.applied == []
    ensures var r := Exec(p, c, evs);
            && (forall k | 0 <= k < |r.applied| :: Complete(c.pool.members, r.applied[k]))
            && r.pool == Run(p, c.pool, Batches(r.applied))
            && WholeCycles(c.pool.members, Batches(r.applied))
  {
    InvExec(p, c, evs);
    var r := Exec(p, c, evs);
    forall k | 0 <= k < |r.applied| ensures FullCycle(c.pool.members, Batches(r.applied)[k]) {
      CompleteIsFull(c.pool, r.applied[k]);
    }
  }

  /** Main result: a checker that starts with a new pool never leaves it in a state where a selection
      falls back to a lagging endpoint. */
  lemma CheckerNeverDegrades(p: Params, g: Band, c: Checker, evs: seq<Event>, d: Draw)
    requires New(c.pool) && c.phase.Idle? && c.applied == []
    ensures !IsDegraded(p, g, Exec(p, c, evs).pool, d)
  {
    OnlyWholeCycles(p, c, evs);
    NeverDegraded(p, g, c.pool, Batches(Exec(p, c, evs).applied));
  }

  lemma {:induction false} InvExec(p: Params, c: Checker, evs: seq<Event>)
    requires c.phase.Idle? && c.applied == []
    ensures Inv(p, c.pool, Exec(p, c, evs))
  {
    if evs != [] {
      InvExec(p, c, evs[..|evs| - 1]);
      InvNext(p, c.pool, Exec(p, c, evs[..|evs| - 1]), evs[|evs| - 1]);
    }
  }

  lemma CompleteIsFull(s: PoolState, slots: seq<Slot>)
    requires Complete(s.members, slots)
    ensures FullCycle(s.members, Results(slots))
  {
    InOrderIsFull(s, Results(slots));
  }

  // ---- The order of the workers ----

  /** Probes that end, no worker twice. */
  ghost predicate EachOnce(evs: seq<Event>) {
    && (forall i | 0 <= i < |evs| :: evs[i].Finish?)
    && forall i, j | 0 <= i < j < |evs| :: evs[i].worker != evs[j].worker
  }

  /** Main result: the order in which the workers finish changes nothing at all. */
  lemma ScheduleIndependence(p: Params, c: Checker, a: seq<Event>, b: seq<Event>)
    requires c.phase.Probing? && EachOnce(a) && multiset(a) == multiset(b)
    ensures Exec(p, c, a) == Exec(p, c, b)
  {
    PermutedOnce(a, b);
    Collected(p, c, a);
    Collected(p, c, b);
    var ra, rb := Exec(p, c, a), Exec(p, c, b);
    forall k | 0 <= k < |ra.phase.slots| ensures ra.phase.slots[k] == rb.phase.slots[k] {
      SamePlace(c, a, ra, b, rb, k);
    }
    assert ra.phase.slots == rb.phase.slots;
  }

  lemma SamePlace(c: Checker, a: seq<Event>, ra: Checker, b: seq<Event>, rb: Checker, k: nat)
    requires OnlyPlaces(c, ra) && OnlyPlaces(c, rb) && k < |c.phase.slots|
    requires Reported(c, a, ra, k) && Reported(c, b, rb, k) && multiset(a) == multiset(b)
    ensures ra.phase.slots[k] == rb.phase.slots[k]
  {
    forall ev ensures ev in a <==> ev in b {
      assert ev in multiset(a) <==> ev in multiset(b);
    }
    if r :| Finish(k, r) in a {
      assert Finish(k, r) in b;
    }
  }

  lemma PermutedOnce(a: seq<Event>, b: seq<Event>)
    requires EachOnce(a) && multiset(a) == multiset(b)
    ensures EachOnce(b)
  {
    forall i | 0 <= i < |b| ensures b[i].Finish? {
      assert b[i] in multiset(b);
    }
    forall i, j | 0 <= i < j < |b| ensures b[i].worker != b[j].worker {
      if b[i].worker == b[j].worker {
        TwoOfThem(b, i, j);
        assert b[i] in multiset(a) && b[j] in multiset(a);
        var k :| 0 <= k < |a| && a[k] == b[i];
        var l :| 0 <= l < |a| && a[l] == b[j];
        assert k == l;
        OnlyOne(a, k);
      }
    }
  }

  lemma TwoOfThem(b: seq<Event>, i: nat, j: nat)
    requires i < j < |b|
    ensures b[i] == b[j] ==> multiset(b)[b[i]] >= 2
  {
    assert b == b[..i] + [b[i]] + b[i + 1..j] + [b[j]] + b[j + 1..];
  }

  lemma OnlyOne(a: seq<Event>, k: nat)
    requires k < |a| && EachOnce(a)
    ensures multiset(a)[a[k]] == 1
  {
    assert a == a[..k] + [a[k]] + a[k + 1..];
    assert a[k] !in a[..k] && a[k] !in a[k + 1..];
  }

  /** Place k holds what its own worker reported, if it has, and is as it was before otherwise. */
  ghost predicate Reported(c: Checker, evs: seq<Event>, r: Checker, k: int)
    requires c.phase.Probing? && r.phase.Probing? && 0 <= k < |c.phase.slots| == |r.phase.slots|
  {
    var was, now := c.phase.slots[k], r.phase.slots[k];
    && (forall x | Finish(k, x) in evs ::
          now == if k < |c.pool.members| && was.Pending? then Done(Probe(c.pool.members[k], x), c.cancelled) else was)
    && ((forall x :: Finish(k, x) !in evs) ==> now == was)
  }

  /** Nothing else happened. */
  predicate OnlyPlaces(c: Checker, r: Checker) {
    c.phase.Probing? && r.phase.Probing? && r == c.(phase := r.phase) && |r.phase.slots| == |c.phase.slots|
  }

  /** Each slot holds what its own worker reported, and nothing else happened. */
  lemma {:induction false} Collected(p: Params, c: Checker, evs: seq<Event>)
    requires c.phase.Probing? && EachOnce(evs)
    ensures var r := Exec(p, c, evs);
            OnlyPlaces(c, r) && forall k | 0 <= k < |r.phase.slots| :: Reported(c, evs, r, k)
  {
    if evs != [] {
      var n := |evs| - 1;
      Collected(p, c, evs[..n]);
      var s := Exec(p, c, evs[..n]);
      assert evs == evs[..n] + [evs[n]];
      forall k | 0 <= k < |s.phase.slots| ensures Reported(c, evs, Next(p, s, evs[n]), k) {
        OneMoreReport(p, c, evs[..n], s, evs[n], k);
      }
    }
  }

  lemma OneMoreReport(p: Params, c: Checker, evs: seq<Event>, s: Checker, ev: Event, k: nat)
    requires OnlyPlaces(c, s) && k < |s.phase.slots| && Reported(c, evs, s, k)
    requires ev.Finish? && forall x :: Finish(ev.worker, x) !in evs
    ensures OnlyPlaces(c, Next(p, s, ev)) && Reported(c, evs + [ev], Next(p, s, ev), k)
  {
  }

  /** A worker that ends fills its own place with exactly what its probe returned, and it is noted whether
      the cancellation came first. */
  lemma FinishRecords(p: Params, c: Checker, k: nat, x: Reading)
    requires c.phase.Probing? && k < |c.phase.slots| == |c.pool.members| && c.phase.slots[k].Pending?
    ensures var r := Next(p, c, Finish(k, x));
            && r.phase.Probing? && r.pool == c.pool && r.cancelled == c.cancelled && r.applied == c.applied
            && r.phase.slots == c.phase.slots[k := Done(ProbeResult(c.pool.members[k], x.slot, x.latency, x.err),
                                                        c.cancelled)]
  {
  }

  // ---- Cancellation ----

  /** Once cancelled, a cycle that has not passed its check never reaches the pool, nor does any
      later one. */
  lemma {:induction false} CancelledNeverApplied(p: Params, c: Checker, evs: seq<Event>)
    requires c.cancelled && !c.phase.Checked?
    ensures var r := Exec(p, c, evs);
            r.pool == c.pool && r.applied == c.applied && r.cancelled && !r.phase.Checked?
  {
    if evs != [] {
      CancelledNeverApplied(p, c, evs[..|evs| - 1]);
    }
  }

  /** The cycle that had passed its check is still to be applied, or has been, and nothing else was. */
  ghost predicate AppliedOnce(p: Params, c: Checker, r: Checker)
    requires c.phase.Checked? && AllDone(c.phase.slots)
  {
    || r == c
    || (r.pool == ApplyBatch(p, c.pool, Results(c.phase.slots)) && r.applied == c.applied + [c.phase.slots]
        && !r.phase.Checked? && r.cancelled)
  }

  /** A cycle that passed its check before the cancellation may still be applied, and is the last. */
  lemma {:induction false} OneBatchAfterCancel(p: Params, c: Checker, evs: seq<Event>)
    requires c.cancelled && c.phase.Checked? && AllDone(c.phase.slots)
    ensures AppliedOnce(p, c, Exec(p, c, evs))
  {
    if evs != [] {
      OneBatchAfterCancel(p, c, evs[..|evs| - 1]);
      AppliedOnceNext(p, c, Exec(p, c, evs[..|evs| - 1]), evs[|evs| - 1]);
    }
  }

  lemma AppliedOnceNext(p: Params, c: Checker, r: Checker, ev: Event)
    requires c.cancelled && c.phase.Checked? && AllDone(c.phase.slots) && AppliedOnce(p, c, r)
    ensures AppliedOnce(p, c, Next(p, r, ev))
  {
  }

  // ---- What becomes of a reading ----

  /** The batch a cycle observes, whatever the order of its workers. */
  function Observed(endpoints: seq<Endpoint>, readings: seq<Reading>): (b: Batch)
    requires |readings| == |endpoints|
    ensures |b| == |endpoints|
  {
    seq(|endpoints|, k requires 0 <= k < |endpoints| => Probe(endpoints[k], readings[k]))
  }

  /** Every member takes in its own reading, error and all. */
  ghost predicate TookAll(p: Params, s: PoolState, readings: seq<Reading>, r: PoolState)
    requires |readings| == |s.members| == |r.members| && r.members == s.members
  {
    forall k | 0 <= k < |readings| ::
      var e, x := s.members[k], readings[k];
      Took(p, s.health[e], x.slot, x.latency, x.err, r.health[e])
  }

  /** Main result: a whole cycle's effect, in terms of the readings alone. */
  lemma CycleTakesReadings(p: Params, s: PoolState, readings: seq<Reading>)
    requires |readings| == |s.members|
    ensures TookAll(p, s, readings, ApplyBatch(p, s, Observed(s.members, readings)))
  {
    var b := Observed(s.members, readings);
    forall k | 0 <= k < |readings|
      ensures var e, x := s.members[k], readings[k];
              Took(p, s.health[e], x.slot, x.latency, x.err, ApplyBatch(p, s, b).health[e])
    {
      var e, x := s.members[k], readings[k];
      ProjectMembers(s, b, k, |b|);
      assert b[..|b|] == b;
      ReplayOne(p, s.health[e], b[k].Outcome());
      RecordTook(p, s.health[e], x.slot, x.latency, x.err);
    }
  }

  /** The pool after a whole cycle, as a batch and in terms of the readings. */
  ghost predicate Cycled(p: Params, s: PoolState, readings: seq<Reading>, r: PoolState)
    requires |readings| == |s.members|
  {
    && r == ApplyBatch(p, s, Observed(s.members, readings))
    && TookAll(p, s, readings, r)
  }

  lemma IsCycled(p: Params, s: PoolState, readings: seq<Reading>, r: PoolState)
    requires |readings| == |s.members| && r == ApplyBatch(p, s, Observed(s.members, readings))
    ensures Cycled(p, s, readings, r)
  {
    CycleTakesReadings(p, s, readings);
  }

  // ---- A cycle that is not cancelled is applied ----

  lemma {:induction false} ExecConcat(p: Params, c: Checker, a: seq<Event>, b: seq<Event>)
    ensures Exec(p, c, a + b) == Exec(p, Exec(p, c, a), b)
  {
    if b == [] {
      assert a + b == a;
    } else {
      ExecConcat(p, c, a, b[..|b| - 1]);
      assert (a + b)[..|a + b| - 1] == a + b[..|b| - 1];
    }
  }

  /** Every worker finishes, once and in any order, with its own reading. */
  ghost predicate AllFinish(readings: seq<Reading>, evs: seq<Event>) {
    && EachOnce(evs)
    && forall k | 0 <= k < |readings| :: Finish(k, readings[k]) in evs
  }

  function Expected(members: seq<Endpoint>, readings: seq<Reading>): (slots: seq<Slot>)
    requires |readings| == |members|
    ensures |slots| == |members|
  {
    seq(|members|, k requires 0 <= k < |members| => Done(Probe(members[k], readings[k]), false))
  }

  lemma Gathered(p: Params, c: Checker, readings: seq<Reading>, evs: seq<Event>)
    requires c.phase.Probing? && !c.cancelled && |c.phase.slots| == |c.pool.members| == |readings|
    requires forall k | 0 <= k < |c.phase.slots| :: c.phase.slots[k].Pending?
    requires AllFinish(readings, evs)
    ensures Exec(p, c, evs) == c.(phase := Probing(Expected(c.pool.members, readings)))
  {
    Collected(p, c, evs);
    var r := Exec(p, c, evs);
    forall k | 0 <= k < |readings| ensures r.phase.slots[k] == Expected(c.pool.members, readings)[k] {
      assert Reported(c, evs, r, k) && Finish(k, readings[k]) in evs;
    }
    assert r.phase.slots == Expected(c.pool.members, readings);
  }

  /** Main result: a cycle that begins, gathers all its readings in any order and is not cancelled becomes the
      pool's next state, and every member has taken in its own reading. */
  lemma CycleCompletes(p: Params, c: Checker, readings: seq<Reading>, evs: seq<Event>)
    requires c.phase.Idle? && !c.cancelled && c.pool.members != [] && |readings| == |c.pool.members|
    requires AllFinish(readings, evs)
    ensures var r := Exec(p, c, [Begin] + evs + [Event.Check, Event.Apply]);
            && r.phase.Idle? && !r.cancelled && |r.applied| == |c.applied| + 1
            && Cycled(p, c.pool, readings, r.pool)
  {
    var slots := Expected(c.pool.members, readings);
    ExecConcat(p, c, [Begin], evs);
    ExecConcat(p, c, [Begin] + evs, [Event.Check, Event.Apply]);
    var begun := Begins(p, c);
    Gathered(p, begun, readings, evs);
    Ends(p, c.(phase := Probing(slots)), slots);
    assert Results(slots) == Observed(c.pool.members, readings);
    CycleTakesReadings(p, c.pool, readings);
  }

  lemma Begins(p: Params, c: Checker) returns (r: Checker)
    requires c.phase.Idle? && c.pool.members != []
    ensures r == Exec(p, c, [Begin]) == c.(phase := Probing(seq(|c.pool.members|, _ => Pending)))
  {
    r := Exec(p, c, [Begin]);
    assert [Begin][..0] == [];
  }

  lemma Ends(p: Params, c: Checker, slots: seq<Slot>)
    requires c.phase == Probing(slots) && AllDone(slots) && !c.cancelled
    ensures Exec(p, c, [Event.Check, Event.Apply])
         == Checker(ApplyBatch(p, c.pool, Results(slots)), Idle, false, c.applied + [slots])
  {
    var evs := [Event.Check, Event.Apply];
    assert evs[..1] == [Event.Check] && [Event.Check][..0] == [];
    assert Exec(p, c, [Event.Check]) == c.(phase := Checked(slots));
  }

  // ---- The method ----

  /** The fan-out with the scheduler left open: any running worker may finish next, and each writes the
      place it owns. The context is cancelled once cancelAfter probes have ended, if ever. */
  method ProbeAll(endpoints: seq<Endpoint>, readings: seq<Reading>, cancelAfter: Option<nat>)
    returns (results: array<ProbeResult>, cancelled: bool)
    requires |readings| == |endpoints|
    ensures fresh(results) && results[..] == Observed(endpoints, readings)
    ensures forall k | 0 <= k < |endpoints| ::
              && results[k].endpoint == endpoints[k] && results[k].slot == readings[k].slot
              && results[k].latency == readings[k].latency && results[k].err == readings[k].err
    ensures cancelled <==> cancelAfter.Some? && cancelAfter.value <= |readings|
  {
    var n := |endpoints|;
    results := new ProbeResult[n](_ => ProbeResult(null, 0, 0, None));
    var running: set<nat> := {};
    for k := 0 to n
      invariant |running| == k && forall i: nat :: i in running <==> i < k
    {
      running := running + {k};
    }
    var ended: nat := 0;
    cancelled := cancelAfter == Some(0);
    while running != {}
      modifies results
      invariant |running| == n - ended && forall k: nat | k in running :: k < n
      invariant forall k | 0 <= k < n && k !in running :: results[k] == Probe(endpoints[k], readings[k])
      invariant cancelled <==> cancelAfter.Some? && cancelAfter.value <= ended
    {
      var k :| k in running;
      results[k] := Probe(endpoints[k], readings[k]);
      running, ended := running - {k}, ended + 1;
      cancelled := cancelled || cancelAfter == Some(ended);
    }
  }

  lemma ObservedFacts(s: PoolState, readings: seq<Reading>)
    requires |readings| == |s.members|
    ensures FullCycle(s.members, Observed(s.members, readings))
    ensures Touched(Observed(s.members, readings)) <= set e | e in s.members
  {
    InOrderIsFull(s, Observed(s.members, readings));
  }

  lemma WholeSnoc(members: seq<Endpoint>, bs: seq<Batch>, b: Batch)
    requires FullCycle(members, b)
    ensures WholeCycles(members, bs) ==> WholeCycles(members, bs + [b])
  {
  }

  /** RunCycle: the pool changes by the whole batch, in the pool's own order, or not at all. */
  method RunCycle(pool: Pool, readings: seq<Reading>, cancelAfter: Option<nat>)
    requires pool.Valid() && |readings| == |pool.endpoints|
    modifies pool, pool.endpoints
    ensures pool.Valid()
    ensures if pool.endpoints == [] || (cancelAfter.Some? && cancelAfter.value <= |readings|) then
              pool.View() == old(pool.View()) && pool.batches == old(pool.batches)
            else
              && Cycled(pool.params, old(pool.View()), readings, pool.View())
              && pool.batches == old(pool.batches) + [Observed(pool.endpoints, readings)]
    ensures old(WholeCycles(pool.endpoints, pool.batches)) ==> WholeCycles(pool.endpoints, pool.batches)
  {
    ghost var before := pool.View();
    var endpoints := pool.endpoints;
    if |endpoints| == 0 {
      return;
    }
    var results, cancelled := ProbeAll(endpoints, readings, cancelAfter);
    if cancelled {
      return;
    }
    ghost var b := Observed(endpoints, readings);
    ObservedFacts(before, readings);
    pool.ApplyProbes(results[..]);
    WholeSnoc(endpoints, old(pool.batches), b);
    IsCycled(pool.params, before, readings, pool.View());
  }
}
