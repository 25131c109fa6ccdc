// The handler itself (router/proxy.go:202-322): ServeHTTP statement by statement on the pool's objects,
// tied to the step system of Proxy, so that what holds of every run holds of it.
module Handler {
  import opened GoTypes
  import opened Sampler
  import opened Endpoints
  import opened PoolSpec
  import opened PoolRuns
  import opened Degraded
  import opened PoolImpl
  import opened Peek
  import opened Proxy

  /** Where a request ends that is to be retried. */
  function Elsewhere(env: Env, pool: PoolState, inbound: Inbound, pr: Progress,
                     gone: bool, d2: Draw, u2: Upstream): Progress
  {
    var retried := Advance(env, pool, inbound, pr, Retry(gone, d2));
    Advance(env, pool, inbound, Advance(env, pool, inbound, retried, Send), Return(u2))
  }

  /** Where a request alone ends: the first selection sees one pool, everything after the first send a later
      one. Moves that do not apply change nothing. */
  function Handle(env: Env, inbound: Inbound, first: PoolState, d1: Draw, u1: Upstream,
                  second: PoolState, gone: bool, d2: Draw, u2: Upstream): Progress
  {
    var chosen := Advance(env, first, inbound, Arrived, Select1(d1));
    var returned := Advance(env, second, inbound, Advance(env, first, inbound, chosen, Send), Return(u1));
    Elsewhere(env, second, inbound, returned, gone, d2, u2)
  }

  lemma FinishedStays(env: Env, pool: PoolState, inbound: Inbound, pr: Progress, gone: bool, d2: Draw, u2: Upstream)
    requires Finished(pr)
    ensures Elsewhere(env, pool, inbound, pr, gone, d2, u2) == pr
  {
    assert forall m :: Advance(env, pool, inbound, pr, m) == pr;
  }

  lemma NothingChosen(env: Env, inbound: Inbound, first: PoolState, d1: Draw, u1: Upstream,
                      second: PoolState, gone: bool, d2: Draw, u2: Upstream)
    requires Finished(Advance(env, first, inbound, Arrived, Select1(d1)))
    ensures Handle(env, inbound, first, d1, u1, second, gone, d2, u2)
         == Advance(env, first, inbound, Arrived, Select1(d1))
  {
    var chosen := Advance(env, first, inbound, Arrived, Select1(d1));
    assert Advance(env, first, inbound, chosen, Send) == chosen;
    assert Advance(env, second, inbound, chosen, Return(u1)) == chosen;
    FinishedStays(env, second, inbound, chosen, gone, d2, u2);
  }

  lemma FirstSent(env: Env, body: Bytes, first: PoolState, d1: Draw, u1: Upstream,
                  second: PoolState, gone: bool, d2: Draw, u2: Upstream, c: Choice)
    requires Advance(env, first, Post(body), Arrived, Select1(d1)) == Chosen(c)
    ensures Handle(env, Post(body), first, d1, u1, second, gone, d2, u2)
         == Elsewhere(env, second, Post(body), Advance(env, second, Post(body), Waiting(c), Return(u1)), gone, d2, u2)
  {
  }

  lemma Retrying(env: Env, pool: PoolState, body: Bytes, c: Choice, u1: Upstream, deadline: bool)
    requires Forward(u1) == Failed(deadline) && Retryable(env, body)
    ensures Advance(env, pool, Post(body), Waiting(c), Return(u1)) == Progress.Broken(c, deadline)
  {
  }

  lemma RetryGoesOn(env: Env, pool: PoolState, body: Bytes, c: Choice, deadline: bool,
                    gone: bool, d2: Draw, u2: Upstream, alt: Choice)
    requires !gone && Select(env.params, env.band, pool, c.endpoint, d2) == Selected(alt.endpoint, alt.degraded)
    requires alt.exclude == c.endpoint && alt.pool == pool
    ensures Elsewhere(env, pool, Post(body), Progress.Broken(c, deadline), gone, d2, u2)
         == Advance(env, pool, Post(body), Rewaiting(c, deadline, alt), Return(u2))
  {
    assert Advance(env, pool, Post(body), Progress.Broken(c, deadline), Retry(gone, d2)) == Rechosen(c, deadline, alt);
  }

  function Cycles(during: seq<Batch>): (acts: seq<Action>)
    ensures |acts| == |during|
  {
    seq(|during|, k requires 0 <= k < |during| => HealthCycle(during[k]))
  }

  /** One request alone, with health cycles after its first send. */
  function RunOf(inbound: Inbound, d1: Draw, u1: Upstream, during: seq<Batch>,
                 gone: bool, d2: Draw, u2: Upstream): seq<Action>
  {
    [Arrive(0, inbound), Move(0, Select1(d1)), Move(0, Send)] + Cycles(during)
    + [Move(0, Return(u1)), Move(0, Retry(gone, d2)), Move(0, Send), Move(0, Return(u2))]
  }

  /** The log so far is that of a request at a certain point. */
  ghost predicate LoggedAt(env: Env, body: Bytes, pr: Progress, log: seq<Event>) {
    log == Transcript(env, body, pr)
  }

  lemma LogNext(env: Env, body: Bytes, pr: Progress, log: seq<Event>)
    requires !pr.Arrived? && LoggedAt(env, body, Before(pr), log)
    ensures LoggedAt(env, body, pr, log + Emitted(env, body, pr))
  {
  }

  ghost predicate LoggedToEnd(env: Env, inbound: Inbound, first: PoolState, d1: Draw, u1: Upstream,
                              second: PoolState, gone: bool, d2: Draw, u2: Upstream, log: seq<Event>)
  {
    LoggedAt(env, BodyOf(inbound), Handle(env, inbound, first, d1, u1, second, gone, d2, u2), log)
  }

  lemma EndsUnsent(env: Env, inbound: Inbound, first: PoolState, d1: Draw, u1: Upstream,
                   second: PoolState, gone: bool, d2: Draw, u2: Upstream, log: seq<Event>)
    requires Finished(Advance(env, first, inbound, Arrived, Select1(d1)))
    requires LoggedAt(env, BodyOf(inbound), Advance(env, first, inbound, Arrived, Select1(d1)), log)
    ensures LoggedToEnd(env, inbound, first, d1, u1, second, gone, d2, u2, log)
  {
    NothingChosen(env, inbound, first, d1, u1, second, gone, d2, u2);
  }

  ghost predicate LoggedAfter(env: Env, pool: PoolState, body: Bytes, c: Choice, u1: Upstream, gone: bool, d2: Draw,
                              u2: Upstream, log: seq<Event>)
  {
    LoggedAt(env, body,
             Elsewhere(env, pool, Post(body), Advance(env, pool, Post(body), Waiting(c), Return(u1)), gone, d2, u2),
             log)
  }

  lemma EndsAfterSend(env: Env, body: Bytes, first: PoolState, d1: Draw, u1: Upstream,
                      second: PoolState, gone: bool, d2: Draw, u2: Upstream, c: Choice, log: seq<Event>)
    requires Advance(env, first, Post(body), Arrived, Select1(d1)) == Chosen(c)
    requires LoggedAfter(env, second, body, c, u1, gone, d2, u2, log)
    ensures LoggedToEnd(env, Post(body), first, d1, u1, second, gone, d2, u2, log)
  {
    FirstSent(env, body, first, d1, u1, second, gone, d2, u2, c);
  }

  /** In the run with these actions the request of number 0 comes to this point with this log. */
  ghost predicate Produces(env: Env, first: PoolState, inbound: Inbound, acts: seq<Action>,
                           pr: Progress, log: seq<Event>)
  {
    var requests := Exec(env, System(first, map[]), acts).requests;
    0 in requests && requests[0] == Request(inbound, pr, log)
  }

  /** One request alone is a run of the system, which takes it to its end with the log in closed form. */
  lemma HandleIsARun(env: Env, inbound: Inbound, first: PoolState, d1: Draw, u1: Upstream,
                     during: seq<Batch>, gone: bool, d2: Draw, u2: Upstream)
    ensures var pr := Handle(env, inbound, first, d1, u1, Run(env.params, first, during), gone, d2, u2);
            Produces(env, first, inbound, RunOf(inbound, d1, u1, during, gone, d2, u2), pr,
                     Transcript(env, BodyOf(inbound), pr))
  {
    var second := Run(env.params, first, during);
    var a := [Arrive(0, inbound), Move(0, Select1(d1)), Move(0, Send)];
    var b := [Move(0, Return(u1)), Move(0, Retry(gone, d2)), Move(0, Send), Move(0, Return(u2))];
    var sent := Opening(env, first, inbound, d1);
    ExecConcat(env, System(first, map[]), a, Cycles(during));
    ExecCycles(env, System(first, map[0 := sent]), during);
    ExecConcat(env, System(first, map[]), a + Cycles(during), b);
    var r := Closing(env, second, sent, u1, gone, d2, u2);
    RunKeeps(env, System(first, map[]), RunOf(inbound, d1, u1, during, gone, d2, u2), 0);
  }

  lemma Opening(env: Env, pool: PoolState, inbound: Inbound, d1: Draw) returns (sent: Request)
    ensures sent.inbound == inbound
    ensures sent.progress == Advance(env, pool, inbound, Advance(env, pool, inbound, Arrived, Select1(d1)), Send)
    ensures Exec(env, System(pool, map[]), [Arrive(0, inbound), Move(0, Select1(d1)), Move(0, Send)])
         == System(pool, map[0 := sent])
  {
    var r := Request(inbound, Arrived, []);
    ExecCons(env, System(pool, map[]), [Arrive(0, inbound), Move(0, Select1(d1)), Move(0, Send)]);
    assert [Arrive(0, inbound), Move(0, Select1(d1)), Move(0, Send)][1..]
        == [Move(0, Select1(d1))] + ([Move(0, Send)] + []);
    var chosen := OneMove(env, pool, r, Select1(d1), [Move(0, Send)] + []);
    sent := OneMove(env, pool, chosen, Send, []);
  }

  lemma Closing(env: Env, pool: PoolState, sent: Request, u1: Upstream, gone: bool, d2: Draw, u2: Upstream)
    returns (r: Request)
    ensures r.inbound == sent.inbound
    ensures r.progress ==
            Elsewhere(env, pool, sent.inbound, Advance(env, pool, sent.inbound, sent.progress, Return(u1)),
                      gone, d2, u2)
    ensures Exec(env, System(pool, map[0 := sent]),
                 [Move(0, Return(u1)), Move(0, Retry(gone, d2)), Move(0, Send), Move(0, Return(u2))])
         == System(pool, map[0 := r])
  {
    var last := [Move(0, Return(u2))] + [];
    assert [Move(0, Return(u1)), Move(0, Retry(gone, d2)), Move(0, Send), Move(0, Return(u2))]
        == [Move(0, Return(u1))] + ([Move(0, Retry(gone, d2))] + ([Move(0, Send)] + last));
    var returned := OneMove(env, pool, sent, Return(u1), [Move(0, Retry(gone, d2))] + ([Move(0, Send)] + last));
    var retried := OneMove(env, pool, returned, Retry(gone, d2), [Move(0, Send)] + last);
    var resent := OneMove(env, pool, retried, Send, last);
    r := OneMove(env, pool, resent, Return(u2), []);
  }

  lemma OneMove(env: Env, pool: PoolState, r: Request, m: Move, acts: seq<Action>) returns (next: Request)
    ensures next.inbound == r.inbound && next.progress == Advance(env, pool, r.inbound, r.progress, m)
    ensures Exec(env, System(pool, map[0 := r]), [Move(0, m)] + acts) == Exec(env, System(pool, map[0 := next]), acts)
  {
    next := StepRequest(env, pool, r, m);
    var s := System(pool, map[0 := r]);
    ExecCons(env, s, [Move(0, m)] + acts);
    assert ([Move(0, m)] + acts)[1..] == acts;
    assert Next(env, s, Move(0, m)).requests == map[0 := next];
  }

  lemma {:induction false} ExecCycles(env: Env, s: System, during: seq<Batch>)
    ensures Exec(env, s, Cycles(during)) == s.(pool := Run(env.params, s.pool, during))
  {
    if during != [] {
      var n := |during| - 1;
      ExecCycles(env, s, during[..n]);
      assert Cycles(during)[..n] == Cycles(during[..n]);
    }
  }

  /** A reachable case of a header that is not there: after one whole cycle on a new pool of two endpoints a
      request first goes to the one ahead, gets no answer and is served by the one behind, and the response
      does not say so. */
  lemma LaggingAnswerUnmarked(env: Env, s: PoolState, a: Endpoint, b: Endpoint, hi: uint64, lo: uint64,
                              body: Bytes, d: Draw)
    returns (pr: Progress, log: seq<Event>)
    requires New(s) && a != b && s.members == [a, b]
    requires 0 < lo && hi - lo > env.params.maxSlotLag
    requires body != [] && Retryable(env, body)
    ensures var cycle := [ProbeResult(a, hi, 1, None), ProbeResult(b, lo, 1, None)];
            var acts := RunOf(Post(body), d, NoAnswer(false), [], false, d, Http(200, []));
            && FullCycle(s.members, cycle)
            && Produces(env, ApplyBatch(env.params, s, cycle), Post(body), acts, pr, log)
            && Reply(200, b, false) in log
  {
    var ra, rb := ProbeResult(a, hi, 1, None), ProbeResult(b, lo, 1, None);
    var s1 := TwoResults(env.params, s, a, b, ra, rb);
    HeadOfTwo(s1, a, b);
    forall e | e in s.members ensures |Project([ra, rb], e)| == 1 {
      ProjectPair(ra, rb, e);
    }
    CurrentThenLagging(env, s1, a, b, d);
    pr, log := LaggingRun(env, s1, Choice(a, false, null, s1), Choice(b, true, a, s1), body, d);
  }

  /** A request whose first choice gives no answer and whose second one does. */
  lemma LaggingRun(env: Env, s: PoolState, c: Choice, alt: Choice, body: Bytes, d: Draw)
    returns (pr: Progress, log: seq<Event>)
    requires c.exclude == null && c.pool == alt.pool == s && alt.exclude == c.endpoint
    requires Select(env.params, env.band, s, null, d) == Selected(c.endpoint, c.degraded)
    requires Select(env.params, env.band, s, c.endpoint, d) == Selected(alt.endpoint, alt.degraded)
    requires body != [] && Retryable(env, body)
    ensures Produces(env, s, Post(body), RunOf(Post(body), d, NoAnswer(false), [], false, d, Http(200, [])), pr, log)
    ensures Reply(200, alt.endpoint, c.degraded) in log
  {
    pr := Reanswered(c, false, alt, 200, []);
    log := Transcript(env, body, pr);
    ReplyLogged(env, body, pr);
    LaggingHandled(env, s, c, alt, body, d);
    FirstSent(env, body, s, d, NoAnswer(false), s, false, d, Http(200, []), c);
    assert Run(env.params, s, []) == s;
    HandleIsARun(env, Post(body), s, d, NoAnswer(false), [], false, d, Http(200, []));
  }

  lemma LaggingHandled(env: Env, s: PoolState, c: Choice, alt: Choice, body: Bytes, d: Draw)
    requires Select(env.params, env.band, s, c.endpoint, d) == Selected(alt.endpoint, alt.degraded)
    requires alt.exclude == c.endpoint && alt.pool == s && Retryable(env, body)
    ensures Elsewhere(env, s, Post(body), Advance(env, s, Post(body), Waiting(c), Return(NoAnswer(false))),
                      false, d, Http(200, []))
         == Reanswered(c, false, alt, 200, [])
  {
    var failed := Advance(env, s, Post(body), Waiting(c), Return(NoAnswer(false)));
    assert failed == Progress.Broken(c, false) by {
      Retrying(env, s, body, c, NoAnswer(false), false);
    }
    assert Elsewhere(env, s, Post(body), failed, false, d, Http(200, [])) == Reanswered(c, false, alt, 200, []) by {
      RetryAnswered(env, s, body, c, alt, d);
    }
  }

  lemma RetryAnswered(env: Env, s: PoolState, body: Bytes, c: Choice, alt: Choice, d: Draw)
    requires Select(env.params, env.band, s, c.endpoint, d) == Selected(alt.endpoint, alt.degraded)
    requires alt.exclude == c.endpoint && alt.pool == s
    ensures Elsewhere(env, s, Post(body), Progress.Broken(c, false), false, d, Http(200, []))
         == Reanswered(c, false, alt, 200, [])
  {
    RetryGoesOn(env, s, body, c, false, false, d, Http(200, []), alt);
  }

  lemma CurrentThenLagging(env: Env, s: PoolState, a: Endpoint, b: Endpoint, d: Draw)
    requires a != b && s.members == [a, b] && s.health[a].healthy && s.health[b].healthy
    requires Current(env.params, s, a) && !Current(env.params, s, b)
    ensures Select(env.params, env.band, s, null, d) == Selected(a, false)
    ensures Select(env.params, env.band, s, a, d) == Selected(b, true)
  {
    SelectSound(env.params, env.band, s, null, d);
    SelectSound(env.params, env.band, s, a, d);
    assert Eligible(s, null, a) && Eligible(s, a, b);
  }

  ghost function TouchedBy(bs: seq<Batch>): set<Endpoint> {
    Touched(Flatten(bs))
  }

  /** Health cycles that happen while a request is in flight. */
  method Interfere(pool: Pool, cycles: seq<Batch>)
    requires pool.Valid()
    modifies pool, TouchedBy(cycles)
    ensures pool.Valid() && pool.View() == Run(pool.params, old(pool.View()), cycles)
  {
    for k := 0 to |cycles|
      invariant pool.Valid() && Reached(pool.params, old(pool.View()), cycles[..k], pool.View())
    {
      assert cycles[..k + 1] == cycles[..k] + [cycles[k]];
      ReachedNext(pool.params, old(pool.View()), cycles[..k], pool.View(), cycles[k]);
      InFlatten(cycles, k);
      pool.ApplyProbes(cycles[k]);
    }
    assert cycles[..|cycles|] == cycles;
  }

  lemma {:induction false} InFlatten(bs: seq<Batch>, k: nat)
    requires k < |bs|
    ensures forall r | r in bs[k] :: r in Flatten(bs)
  {
    if k < |bs| - 1 {
      InFlatten(bs[..|bs| - 1], k);
    }
  }

  lemma ChosenAndSent(env: Env, body: Bytes, c: Choice, log: seq<Event>)
    requires log == [Chose(c)] + (if c.degraded then [ObserveDegraded(c.endpoint)] else []) + [Sent(c.endpoint, body)]
    ensures LoggedAt(env, body, Waiting(c), log)
  {
    assert [] + Emitted(env, body, Chosen(c)) == Emitted(env, body, Chosen(c));
    LogNext(env, body, Chosen(c), []);
    LogNext(env, body, Waiting(c), Emitted(env, body, Chosen(c)));
  }

  /** ServeHTTP, first half: select an endpoint and send the request to it. */
  method TryOnce(env: Env, pool: Pool, body: Bytes, d1: Draw, u1: Upstream)
    returns (log: seq<Event>, ep: Endpoint?, degraded: bool, result: Attempt)
    requires pool.Valid() && env.params == pool.params && body != []
    ensures var chosen := Advance(env, pool.View(), Post(body), Arrived, Select1(d1));
            if ep == null then chosen == Starved && LoggedAt(env, body, chosen, log)
            else
              && chosen == Chosen(Choice(ep, degraded, null, pool.View()))
              && LoggedAt(env, body, Waiting(chosen.c), log)
              && result == Forward(u1)
  {
    var selection := pool.Select(env.band, d1);
    if selection.NoEndpoints? {
      log := [ObserveUpstreamError(null), Reply(503, null, false)];
      LogNext(env, body, Starved, []);
      return log, null, false, Failed(false);
    }
    ep, degraded := selection.endpoint, selection.degraded;
    var c := Choice(ep, degraded, null, pool.View());
    log := [Chose(c)];
    if degraded {
      log := log + [ObserveDegraded(ep)];
    }
    log := log + [Sent(ep, body)];
    ChosenAndSent(env, body, c, log);
    result := Forward(u1);
  }

  /** The end of a request: what the last endpoint tried came to. */
  method Conclude(env: Env, ep: Endpoint, degraded: bool, result: Attempt, before: seq<Event>) returns (log: seq<Event>)
    ensures log == before + EndOf(env, ep, degraded, result)
  {
    if result.Failed? {
      var status := if result.deadline then 504 else 502;
      return before + [ObserveUpstreamError(ep), Reply(status, null, false), ObserveRequest(ep, status)];
    }
    var events: seq<Event> := [];
    var code := ErrorCode(env.errorOf, result.body);
    if code.Some? {
      events := [ObserveRPCError(ep, code.value)];
    }
    return before + (events + [Reply(result.status, ep, degraded), ObserveRequest(ep, result.status)]);
  }

  function EndOf(env: Env, ep: Endpoint, degraded: bool, a: Attempt): seq<Event> {
    match a
    case Failed(deadline) => FailureEvents(ep, deadline)
    case Answered(status, body) => SuccessEvents(env, ep, degraded, status, body)
  }

  /** An answer that ends the request, whatever it is. */
  method Finish(env: Env, body: Bytes, ep: Endpoint, degraded: bool, result: Attempt, before: seq<Event>,
                ghost s: PoolState, ghost pr: Progress, ghost u: Upstream) returns (log: seq<Event>)
    requires LoggedAt(env, body, pr, before) && result == Forward(u)
    requires pr.Waiting? || pr.Rewaiting?
    requires LastChoice(pr).endpoint == ep && pr.c.degraded == degraded
    requires pr.Waiting? && result.Failed? ==> !Retryable(env, body)
    ensures LoggedAt(env, body, Advance(env, s, Post(body), pr, Return(u)), log)
    ensures Finished(Advance(env, s, Post(body), pr, Return(u)))
  {
    ghost var next := Advance(env, s, Post(body), pr, Return(u));
    LogNext(env, body, next, before);
    assert before + [Returned(ep, result)] + EndOf(env, ep, degraded, result)
        == before + ([Returned(ep, result)] + EndOf(env, ep, degraded, result));
    log := Conclude(env, ep, degraded, result, before + [Returned(ep, result)]);
  }

  /** The request is logged to where it ends that is to be retried from here. */
  ghost predicate LoggedElsewhere(env: Env, pool: PoolState, body: Bytes, c: Choice, deadline: bool,
                                  gone: bool, d2: Draw, u2: Upstream, log: seq<Event>)
  {
    LoggedAt(env, body, Elsewhere(env, pool, Post(body), Progress.Broken(c, deadline), gone, d2, u2), log)
  }

  lemma RetryGivenUp(env: Env, pool: PoolState, body: Bytes, c: Choice, deadline: bool,
                     gone: bool, d2: Draw, u2: Upstream)
    requires gone || Select(env.params, env.band, pool, c.endpoint, d2).NoEndpoints?
    ensures Elsewhere(env, pool, Post(body), Progress.Broken(c, deadline), gone, d2, u2) == Abandoned(c, deadline)
  {
    assert Advance(env, pool, Post(body), Progress.Broken(c, deadline), Retry(gone, d2)) == Abandoned(c, deadline);
  }

  lemma RetryStops(env: Env, pool: PoolState, body: Bytes, c: Choice, deadline: bool,
                   gone: bool, d2: Draw, u2: Upstream, log: seq<Event>)
    requires gone || Select(env.params, env.band, pool, c.endpoint, d2).NoEndpoints?
    requires LoggedAt(env, body, Progress.Broken(c, deadline), log)
    ensures LoggedElsewhere(env, pool, body, c, deadline, gone, d2, u2, log + FailureEvents(c.endpoint, deadline))
  {
    LogNext(env, body, Abandoned(c, deadline), log);
    RetryGivenUp(env, pool, body, c, deadline, gone, d2, u2);
  }

  lemma RetrySent(env: Env, pool: PoolState, body: Bytes, c: Choice, deadline: bool,
                  gone: bool, d2: Draw, u2: Upstream, alt: Choice, log: seq<Event>)
    requires !gone && Select(env.params, env.band, pool, c.endpoint, d2) == Selected(alt.endpoint, alt.degraded)
    requires alt.exclude == c.endpoint && alt.pool == pool
    requires LoggedAt(env, body, Advance(env, pool, Post(body), Rewaiting(c, deadline, alt), Return(u2)), log)
    ensures LoggedElsewhere(env, pool, body, c, deadline, gone, d2, u2, log)
  {
    RetryGoesOn(env, pool, body, c, deadline, gone, d2, u2, alt);
  }

  /** The second attempt: the same body to the alternative, and what comes back is passed on. */
  method Resend(env: Env, body: Bytes, degraded: bool, alt: Choice, u2: Upstream, before: seq<Event>,
                ghost c: Choice, ghost deadline: bool) returns (log: seq<Event>)
    requires c.degraded == degraded && alt.exclude == c.endpoint
    requires LoggedAt(env, body, Progress.Broken(c, deadline), before)
    ensures LoggedAt(env, body, Advance(env, alt.pool, Post(body), Rewaiting(c, deadline, alt), Return(u2)), log)
  {
    log := before + [Chose(alt), ObserveRetry(alt.exclude, alt.endpoint)];
    LogNext(env, body, Rechosen(c, deadline, alt), before);
    LogNext(env, body, Rewaiting(c, deadline, alt), log);
    log := log + [Sent(alt.endpoint, body)];
    var result := Forward(u2);
    log := Finish(env, body, alt.endpoint, degraded, result, log, alt.pool, Rewaiting(c, deadline, alt), u2);
  }

  /** After a failure that may be retried: unless the client has gone or nobody else is eligible, select
      an endpoint other than the one that failed and send the same body to it. */
  method TryElsewhere(env: Env, pool: Pool, body: Bytes, tried: Endpoint, degraded: bool, failed: Attempt,
                      gone: bool, d2: Draw, u2: Upstream, before: seq<Event>, ghost c: Choice)
    returns (log: seq<Event>)
    requires pool.Valid() && env.params == pool.params && failed.Failed?
    requires c.endpoint == tried && c.degraded == degraded
    requires LoggedAt(env, body, Progress.Broken(c, failed.deadline), before)
    ensures LoggedElsewhere(env, pool.View(), body, c, failed.deadline, gone, d2, u2, log)
  {
    var again := NoEndpoints;
    if !gone {
      again := pool.SelectExcluding(env.band, tried, d2);
    }
    if again.Selected? {
      var alt := Choice(again.endpoint, again.degraded, tried, pool.View());
      log := Resend(env, body, degraded, alt, u2, before, c, failed.deadline);
      RetrySent(env, pool.View(), body, c, failed.deadline, gone, d2, u2, alt, log);
    } else {
      log := Conclude(env, tried, degraded, failed, before);
      RetryStops(env, pool.View(), body, c, failed.deadline, gone, d2, u2, before);
    }
  }

  /** What follows the first answer: the request ends with it, or tries elsewhere. */
  method Proceed(env: Env, pool: Pool, body: Bytes, ep: Endpoint, degraded: bool, result: Attempt, gone: bool,
                 d2: Draw, u2: Upstream, before: seq<Event>, ghost c: Choice, ghost u1: Upstream)
    returns (log: seq<Event>)
    requires pool.Valid() && env.params == pool.params
    requires c.endpoint == ep && c.degraded == degraded && result == Forward(u1)
    requires LoggedAt(env, body, Waiting(c), before)
    ensures LoggedAfter(env, pool.View(), body, c, u1, gone, d2, u2, log)
  {
    var (name, isBatch) := PeekMethod(env, body);
    if result.Failed? && IsRetryable(name, isBatch) {
      LogNext(env, body, Progress.Broken(c, result.deadline), before);
      log := before + [Returned(ep, result), ObserveUpstreamError(ep)];
      log := TryElsewhere(env, pool, body, ep, degraded, result, gone, d2, u2, log, c);
      Retrying(env, pool.View(), body, c, u1, result.deadline);
    } else {
      log := Finish(env, body, ep, degraded, result, before, pool.View(), Waiting(c), u1);
      ghost var ended := Advance(env, pool.View(), Post(body), Waiting(c), Return(u1));
      FinishedStays(env, pool.View(), Post(body), ended, gone, d2, u2);
    }
  }

  /** ServeHTTP for a body that has arrived. */
  method Respond(env: Env, pool: Pool, body: Bytes, d1: Draw, u1: Upstream,
                 during: seq<Batch>, gone: bool, d2: Draw, u2: Upstream) returns (log: seq<Event>)
    requires pool.Valid() && env.params == pool.params && body != []
    modifies pool, TouchedBy(during)
    ensures pool.Valid()
    ensures var first := old(pool.View());
            LoggedToEnd(env, Post(body), first, d1, u1, Run(env.params, first, during), gone, d2, u2, log)
  {
    ghost var first := pool.View();
    var ep, degraded, result;
    log, ep, degraded, result := TryOnce(env, pool, body, d1, u1);
    if ep == null {
      EndsUnsent(env, Post(body), first, d1, u1, Run(env.params, first, during), gone, d2, u2, log);
    } else {
      Interfere(pool, during);
      ghost var c := Choice(ep, degraded, null, first);
      log := Proceed(env, pool, body, ep, degraded, result, gone, d2, u2, log, c, u1);
      EndsAfterSend(env, body, first, d1, u1, pool.View(), gone, d2, u2, c, log);
    }
  }

  /** The log is the one that the run of the system with these answers and cycles gives the request. */
  ghost predicate LogOfRun(env: Env, inbound: Inbound, first: PoolState, d1: Draw, u1: Upstream,
                           during: seq<Batch>, gone: bool, d2: Draw, u2: Upstream, log: seq<Event>)
  {
    Produces(env, first, inbound, RunOf(inbound, d1, u1, during, gone, d2, u2),
             Handle(env, inbound, first, d1, u1, Run(env.params, first, during), gone, d2, u2), log)
  }

  lemma EndIsLogOfRun(env: Env, inbound: Inbound, first: PoolState, d1: Draw, u1: Upstream,
                      during: seq<Batch>, gone: bool, d2: Draw, u2: Upstream, log: seq<Event>)
    requires LoggedToEnd(env, inbound, first, d1, u1, Run(env.params, first, during), gone, d2, u2, log)
    ensures LogOfRun(env, inbound, first, d1, u1, during, gone, d2, u2, log)
  {
    HandleIsARun(env, inbound, first, d1, u1, during, gone, d2, u2);
  }

  // ---- What the client is told ----

  /** After c was chosen and its endpoint answered u1: a usable answer is passed on; if it is not and there is no
      second attempt, the client is told 504 or 502; and otherwise what the second attempt comes to. */
  ghost predicate ToldAfter(env: Env, body: Bytes, c: Choice, u1: Upstream, second: PoolState, gone: bool, u2: Upstream,
                            log: seq<Event>)
  {
    if !Unusable(u1) then
      Reply(u1.status, c.endpoint, c.degraded) in log
    else if !Retryable(env, body) || gone
            || forall o | o in second.members && second.health[o].healthy :: o == c.endpoint then
      Reply(if TimedOut(u1) then 504 else 502, null, false) in log
    else if !Unusable(u2) then
      exists j :: 0 <= j < |log| && log[j].Chose? && log[j].choice.exclude == c.endpoint
                  && Reply(u2.status, log[j].choice.endpoint, c.degraded) in log
    else
      Reply(if TimedOut(u2) then 504 else 502, null, false) in log
  }

  /** A body that arrives is answered 503 if nobody is healthy, and else as the choices made for it turn out. */
  ghost predicate ToldRightly(env: Env, body: Bytes, first: PoolState, u1: Upstream, second: PoolState, gone: bool,
                              u2: Upstream, log: seq<Event>)
  {
    if forall o | o in first.members :: !first.health[o].healthy then
      Reply(503, null, false) in log
    else
      exists j :: 0 <= j < |log| && log[j].Chose?
                  && RightAnswer(env.params, first, null, Selected(log[j].choice.endpoint, log[j].choice.degraded))
                  && ToldAfter(env, body, log[j].choice, u1, second, gone, u2, log)
  }

  lemma ClientIsTold(env: Env, body: Bytes, first: PoolState, d1: Draw, u1: Upstream,
                     second: PoolState, gone: bool, d2: Draw, u2: Upstream, log: seq<Event>)
    requires body != [] && LoggedToEnd(env, Post(body), first, d1, u1, second, gone, d2, u2, log)
    ensures ToldRightly(env, body, first, u1, second, gone, u2, log)
  {
    SelectMeaning(env.params, env.band, first, null, d1);
    var chosen := Advance(env, first, Post(body), Arrived, Select1(d1));
    if chosen.Starved? {
      NothingChosen(env, Post(body), first, d1, u1, second, gone, d2, u2);
      assert Reply(503, null, false) in Emitted(env, body, chosen);
    } else {
      var c := chosen.c;
      FirstSent(env, body, first, d1, u1, second, gone, d2, u2, c);
      ToldAfterSend(env, body, c, u1, second, gone, d2, u2, log);
      var j :| 0 <= j < |log| && log[j] == Chose(c);
      assert log[j].choice == c;
    }
  }

  lemma ToldAfterSend(env: Env, body: Bytes, c: Choice, u1: Upstream,
                      second: PoolState, gone: bool, d2: Draw, u2: Upstream, log: seq<Event>)
    requires LoggedAfter(env, second, body, c, u1, gone, d2, u2, log)
    ensures Chose(c) in log && ToldAfter(env, body, c, u1, second, gone, u2, log)
  {
    var returned := Advance(env, second, Post(body), Waiting(c), Return(u1));
    if Unusable(u1) && Retryable(env, body) {
      Retrying(env, second, body, c, u1, TimedOut(u1));
      ToldAfterFailure(env, body, c, u1, second, gone, d2, u2, log);
    } else {
      FinishedStays(env, second, Post(body), returned, gone, d2, u2);
      SendFacts(env, body, returned);
      if Unusable(u1) {
        FailureTold(env, body, returned, TimedOut(u1));
      } else {
        ReplyLogged(env, body, returned);
      }
    }
  }

  lemma FailureTold(env: Env, body: Bytes, pr: Progress, timedOut: bool)
    requires (pr.Dropped? && pr.deadline == timedOut) || (pr.Abandoned? && pr.deadline == timedOut)
             || (pr.Redropped? && pr.again == timedOut)
    ensures Reply(if timedOut then 504 else 502, null, false) in Transcript(env, body, pr)
  {
    assert Reply(if timedOut then 504 else 502, null, false) in Emitted(env, body, pr);
  }

  lemma ToldAfterFailure(env: Env, body: Bytes, c: Choice, u1: Upstream,
                         second: PoolState, gone: bool, d2: Draw, u2: Upstream, log: seq<Event>)
    requires Unusable(u1) && Retryable(env, body)
    requires LoggedElsewhere(env, second, body, c, TimedOut(u1), gone, d2, u2, log)
    ensures Chose(c) in log && ToldAfter(env, body, c, u1, second, gone, u2, log)
  {
    SelectMeaning(env.params, env.band, second, c.endpoint, d2);
    var again := Select(env.params, env.band, second, c.endpoint, d2);
    if gone || again.NoEndpoints? {
      RetryGivenUp(env, second, body, c, TimedOut(u1), gone, d2, u2);
      SendFacts(env, body, Abandoned(c, TimedOut(u1)));
      FailureTold(env, body, Abandoned(c, TimedOut(u1)), TimedOut(u1));
    } else {
      var alt := Choice(again.endpoint, again.degraded, c.endpoint, second);
      RetryGoesOn(env, second, body, c, TimedOut(u1), gone, d2, u2, alt);
      ToldAfterRetry(env, body, c, TimedOut(u1), second, alt, u2, log);
    }
  }

  lemma ToldAfterRetry(env: Env, body: Bytes, c: Choice, deadline: bool, second: PoolState, alt: Choice, u2: Upstream,
                       log: seq<Event>)
    requires LoggedAt(env, body, Advance(env, second, Post(body), Rewaiting(c, deadline, alt), Return(u2)), log)
    ensures Chose(c) in log && Chose(alt) in log
    ensures if Unusable(u2) then Reply(if TimedOut(u2) then 504 else 502, null, false) in log
            else Reply(u2.status, alt.endpoint, c.degraded) in log
  {
    var pr := Advance(env, second, Post(body), Rewaiting(c, deadline, alt), Return(u2));
    SendFacts(env, body, pr);
    if Unusable(u2) {
      FailureTold(env, body, pr, TimedOut(u2));
    } else {
      ReplyLogged(env, body, pr);
    }
  }

  lemma RunOfIsWhole(members: seq<Endpoint>, inbound: Inbound, d1: Draw, u1: Upstream, during: seq<Batch>,
                     gone: bool, d2: Draw, u2: Upstream)
    requires WholeCycles(members, during)
    ensures WholeRun(members, RunOf(inbound, d1, u1, during, gone, d2, u2))
  {
    var acts := RunOf(inbound, d1, u1, during, gone, d2, u2);
    forall k | 0 <= k < |acts| && acts[k].HealthCycle? ensures FullCycle(members, acts[k].results) {
      assert acts[k] == HealthCycle(during[k - 3]);
    }
  }

  lemma WholeProduces(env: Env, first: PoolState, inbound: Inbound, acts: seq<Action>, pr: Progress, log: seq<Event>)
    requires Steady(env.params, first) && WholeRun(first.members, acts)
    requires Produces(env, first, inbound, acts, pr, log)
    ensures forall e | e in log :: !SaysDegraded(e)
  {
    forall e | e in log ensures !SaysDegraded(e) {
      NobodySaysDegraded(env, System(first, map[]), acts, 0, e);
    }
  }

  lemma WholeHandled(env: Env, inbound: Inbound, first: PoolState, d1: Draw, u1: Upstream,
                     during: seq<Batch>, gone: bool, d2: Draw, u2: Upstream, log: seq<Event>)
    requires Steady(env.params, first) && WholeCycles(first.members, during)
    requires LogOfRun(env, inbound, first, d1, u1, during, gone, d2, u2, log)
    ensures forall e | e in log :: !SaysDegraded(e)
  {
    RunOfIsWhole(first.members, inbound, d1, u1, during, gone, d2, u2);
    WholeProduces(env, first, inbound, RunOf(inbound, d1, u1, during, gone, d2, u2),
                  Handle(env, inbound, first, d1, u1, Run(env.params, first, during), gone, d2, u2), log);
  }

  /** ServeHTTP: the statements in the program's order, on the pool itself, with any health cycles
      happening after the first send. It ends, and what it emits is the log that the step system gives the
      request in such a run; nothing in it says degraded if all cycles so far and all of these are whole. */
  method ServeHTTP(env: Env, pool: Pool, inbound: Inbound, d1: Draw, u1: Upstream,
                   during: seq<Batch>, gone: bool, d2: Draw, u2: Upstream) returns (log: seq<Event>)
    requires pool.Valid() && env.params == pool.params
    modifies pool, TouchedBy(during)
    ensures pool.Valid()
    ensures LogOfRun(env, inbound, old(pool.View()), d1, u1, during, gone, d2, u2, log)
    ensures inbound.Post? && inbound.body != [] ==>
              ToldRightly(env, inbound.body, old(pool.View()), u1, Run(env.params, old(pool.View()), during),
                          gone, u2, log)
    ensures old(WholeCycles(pool.endpoints, pool.batches)) && WholeCycles(pool.endpoints, during) ==>
              forall e | e in log :: !SaysDegraded(e)
  {
    ghost var first := pool.View();
    ghost var whole := WholeCycles(pool.endpoints, pool.batches);
    if whole {
      pool.WholeMeansSteady();
    }
    if !inbound.Post? || inbound.body == [] {
      log := Refuse(inbound);
      LogNext(env, BodyOf(inbound), Refused(Refusal(inbound).value), []);
      EndsUnsent(env, inbound, first, d1, u1, Run(env.params, first, during), gone, d2, u2, log);
    } else {
      log := Respond(env, pool, inbound.body, d1, u1, during, gone, d2, u2);
      ClientIsTold(env, inbound.body, first, d1, u1, Run(env.params, first, during), gone, d2, u2, log);
    }
    EndIsLogOfRun(env, inbound, first, d1, u1, during, gone, d2, u2, log);
    if whole && WholeCycles(pool.endpoints, during) {
      WholeHandled(env, inbound, first, d1, u1, during, gone, d2, u2, log);
    }
  }

  /** The answers that involve no endpoint. */
  method Refuse(inbound: Inbound) returns (log: seq<Event>)
    requires !inbound.Post? || inbound.body == []
    ensures Refusal(inbound).Some? && log == [Reply(Refusal(inbound).value, null, false)]
  {
    match inbound {
      case Preflight => return [Reply(204, null, false)];
      case WrongMethod => return [Reply(405, null, false)];
      case TooLarge => return [Reply(413, null, false)];
      case Unreadable => return [Reply(400, null, false)];
      case Post(_) => return [Reply(400, null, false)];
    }
  }
}
