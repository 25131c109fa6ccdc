// The request protocol (router/proxy.go:144-167, 202-322, 342-376): select, forward, maybe retry,
// answer and account, as a step system in which any number of requests interleave with each other and
// with health cycles.
module Proxy {
  import opened GoTypes
  import opened Probes
  import opened Sampler
  import opened Endpoints
  import opened PoolSpec
  import opened PoolRuns
  import opened Degraded
  import opened Peek

  type Bytes = seq<byte>

  /** What the handler is configured with, and the two JSON decodings it relies on: the method of a
      request, if it has one, and the error code of a response, if it has one. */
  datatype Env = Env(
    params: Params,
    band: Band,
    methodOf: Bytes -> Option<string>,
    errorOf: Bytes -> Option<int>)

  // ---- What may be retried ----

  const WRITE_METHODS := {"sendTransaction", "requestAirdrop"}

  function TrimLeft(body: Bytes): Bytes {
    if body != [] && body[0] in {32, 9, 13, 10} then TrimLeft(body[1..]) else body
  }

  /** The method name to route on, and whether the body is a batch: an array, seen by its bracket. */
  function PeekMethod(env: Env, body: Bytes): (string, bool) {
    var trimmed := TrimLeft(body);
    if trimmed != [] && trimmed[0] == 91 then ("batch", true)
    else
      match env.methodOf(trimmed)
      case Some(m) => (if m == "" then "unknown" else m, false)
      case None => ("unknown", false)
  }

  predicate IsRetryable(name: string, isBatch: bool) {
    !isBatch && name !in WRITE_METHODS
  }

  predicate Retryable(env: Env, body: Bytes) {
    var (name, isBatch) := PeekMethod(env, body);
    IsRetryable(name, isBatch)
  }

  ghost predicate AllSpace(s: Bytes) {
    forall k | 0 <= k < |s| :: s[k] in {32, 9, 13, 10}
  }

  lemma {:induction false} LeadingSpaceIgnored(space: Bytes, body: Bytes)
    requires AllSpace(space)
    ensures TrimLeft(space + body) == TrimLeft(body)
  {
    if space == [] {
      assert space + body == body;
    } else {
      assert (space + body)[0] == space[0] && (space + body)[1..] == space[1..] + body;
      LeadingSpaceIgnored(space[1..], body);
    }
  }

  /** Whatever white space comes first, a body is sent again only if it is no array and does not name a
      write method; a body without a method name may be sent again. */
  lemma WhatMayBeRetried(env: Env, space: Bytes, body: Bytes)
    requires AllSpace(space) && (body == [] || body[0] !in {32, 9, 13, 10})
    ensures Retryable(env, space + body) <==>
            && (body == [] || body[0] != 91)
            && env.methodOf(body) != Some("sendTransaction")
            && env.methodOf(body) != Some("requestAirdrop")
  {
    LeadingSpaceIgnored(space, body);
  }

  // ---- One request ----

  /** A request as it arrives: most refusals are decided before any endpoint is involved. */
  datatype Inbound =
    | Preflight
    | WrongMethod
    | TooLarge
    | Unreadable
    | Post(body: Bytes)

  /** What sending to an upstream comes to: no answer, perhaps by deadline, or an HTTP response. */
  datatype Upstream = NoAnswer(deadline: bool) | Http(status: int, body: Bytes)

  datatype Attempt = Failed(deadline: bool) | Answered(status: int, body: Bytes)

  /** 5xx and 429 count as failures of the endpoint; every other status passes through. */
  function Forward(u: Upstream): Attempt {
    match u
    case NoAnswer(deadline) => Failed(deadline)
    case Http(status, body) =>
      if status >= 500 || status == 429 then Failed(false) else Answered(status, body)
  }

  /** A selection and the pool it was made in. */
  datatype Choice = Choice(endpoint: Endpoint, degraded: bool, exclude: Endpoint?, pool: PoolState)

  datatype Event =
    | Chose(choice: Choice)
    | Sent(endpoint: Endpoint, body: Bytes)
    | Returned(endpoint: Endpoint, attempt: Attempt)
    | ObserveRequest(endpoint: Endpoint, status: int)
    | ObserveUpstreamError(at: Endpoint?)
    | ObserveDegraded(endpoint: Endpoint)
    | ObserveRetry(from: Endpoint, to: Endpoint)
    | ObserveRPCError(endpoint: Endpoint, code: int)
    | Reply(status: int, servedBy: Endpoint?, degraded: bool)

  /** How far a request has come, with the answers it got on the way. */
  datatype Progress =
    | Arrived
    | Refused(status: int)
    | Starved
    | Chosen(c: Choice)
    | Waiting(c: Choice)
    | Served(c: Choice, status: int, body: Bytes)
    | Dropped(c: Choice, deadline: bool)
    | Broken(c: Choice, deadline: bool)
    | Abandoned(c: Choice, deadline: bool)
    | Rechosen(c: Choice, deadline: bool, alt: Choice)
    | Rewaiting(c: Choice, deadline: bool, alt: Choice)
    | Reanswered(c: Choice, deadline: bool, alt: Choice, status: int, body: Bytes)
    | Redropped(c: Choice, deadline: bool, alt: Choice, again: bool)

  predicate Finished(pr: Progress) {
    pr.Refused? || pr.Starved? || pr.Served? || pr.Dropped? || pr.Abandoned? || pr.Reanswered? || pr.Redropped?
  }

  /** The scheduler's moves for one request; random draws and upstream answers come with them. */
  datatype Move =
    | Select1(draw: Draw)
    | Send
    | Return(upstream: Upstream)
    | Retry(clientGone: bool, draw: Draw)

  function Refusal(inbound: Inbound): Option<int> {
    match inbound
    case Preflight => Some(204)
    case WrongMethod => Some(405)
    case TooLarge => Some(413)
    case Unreadable => Some(400)
    case Post(body) => if body == [] then Some(400) else None
  }

  /** Where a move takes a request; a move that does not apply changes nothing. */
  function Advance(env: Env, pool: PoolState, inbound: Inbound, pr: Progress, m: Move): Progress {
    match (pr, m)
    case (Arrived, Select1(d)) =>
      if Refusal(inbound).Some? then Refused(Refusal(inbound).value)
      else
        (match Select(env.params, env.band, pool, null, d)
         case NoEndpoints => Starved
         case Selected(ep, degraded) => Chosen(Choice(ep, degraded, null, pool)))
    case (Chosen(c), Send) => Waiting(c)
    case (Waiting(c), Return(u)) =>
      (match Forward(u)
       case Answered(status, body) => Served(c, status, body)
       case Failed(deadline) =>
         if inbound.Post? && Retryable(env, inbound.body) then Broken(c, deadline) else Dropped(c, deadline))
    case (Broken(c, deadline), Retry(gone, d)) =>
      if gone then Abandoned(c, deadline)
      else
        (match Select(env.params, env.band, pool, c.endpoint, d)
         case NoEndpoints => Abandoned(c, deadline)
         case Selected(ep, degraded) => Rechosen(c, deadline, Choice(ep, degraded, c.endpoint, pool)))
    case (Rechosen(c, deadline, alt), Send) => Rewaiting(c, deadline, alt)
    case (Rewaiting(c, deadline, alt), Return(u)) =>
      (match Forward(u)
       case Answered(status, body) => Reanswered(c, deadline, alt, status, body)
       case Failed(again) => Redropped(c, deadline, alt, again))
    case _ => pr
  }

  function FailureEvents(ep: Endpoint, deadline: bool): seq<Event> {
    var status := if deadline then 504 else 502;
    [ObserveUpstreamError(ep), Reply(status, null, false), ObserveRequest(ep, status)]
  }

  function SuccessEvents(env: Env, ep: Endpoint, degraded: bool, status: int, body: Bytes): seq<Event> {
    var code := ErrorCode(env.errorOf, body);
    (if code.Some? then [ObserveRPCError(ep, code.value)] else [])
    + [Reply(status, ep, degraded), ObserveRequest(ep, status)]
  }

  /** What a request does on coming to a point. */
  function Emitted(env: Env, body: Bytes, pr: Progress): seq<Event> {
    match pr
    case Arrived => []
    case Refused(status) => [Reply(status, null, false)]
    case Starved => [ObserveUpstreamError(null), Reply(503, null, false)]
    case Chosen(c) => [Chose(c)] + if c.degraded then [ObserveDegraded(c.endpoint)] else []
    case Waiting(c) => [Sent(c.endpoint, body)]
    case Served(c, status, b) =>
      [Returned(c.endpoint, Answered(status, b))] + SuccessEvents(env, c.endpoint, c.degraded, status, b)
    case Dropped(c, deadline) => [Returned(c.endpoint, Failed(deadline))] + FailureEvents(c.endpoint, deadline)
    case Broken(c, deadline) => [Returned(c.endpoint, Failed(deadline)), ObserveUpstreamError(c.endpoint)]
    case Abandoned(c, deadline) => FailureEvents(c.endpoint, deadline)
    case Rechosen(c, _, alt) => [Chose(alt), ObserveRetry(c.endpoint, alt.endpoint)]
    case Rewaiting(_, _, alt) => [Sent(alt.endpoint, body)]
    case Reanswered(c, _, alt, status, b) =>
      [Returned(alt.endpoint, Answered(status, b))] + SuccessEvents(env, alt.endpoint, c.degraded, status, b)
    case Redropped(_, _, alt, again) => [Returned(alt.endpoint, Failed(again))] + FailureEvents(alt.endpoint, again)
  }

  datatype Request = Request(inbound: Inbound, progress: Progress, log: seq<Event>)

  function BodyOf(inbound: Inbound): Bytes {
    if inbound.Post? then inbound.body else []
  }

  function StepRequest(env: Env, pool: PoolState, r: Request, m: Move): Request {
    var pr := Advance(env, pool, r.inbound, r.progress, m);
    if pr == r.progress then r
    else Request(r.inbound, pr, r.log + Emitted(env, BodyOf(r.inbound), pr))
  }

  // ---- The system ----

  datatype System = System(pool: PoolState, requests: map<nat, Request>)

  datatype Action =
    | HealthCycle(results: Batch)
    | Arrive(id: nat, inbound: Inbound)
    | Move(id: nat, move: Move)

  function Next(env: Env, s: System, a: Action): System {
    match a
    case HealthCycle(results) => s.(pool := ApplyBatch(env.params, s.pool, results))
    case Arrive(id, inbound) =>
      if id in s.requests then s else s.(requests := s.requests[id := Request(inbound, Arrived, [])])
    case Move(id, m) =>
      if id !in s.requests then s
      else s.(requests := s.requests[id := StepRequest(env, s.pool, s.requests[id], m)])
  }

  function Exec(env: Env, s: System, acts: seq<Action>): System {
    if acts == [] then s else Next(env, Exec(env, s, acts[..|acts| - 1]), acts[|acts| - 1])
  }

  /** Requests do not influence each other or the pool, and a health cycle is nothing to them but the pool's
      next state. */
  lemma ActionEffects(env: Env, s: System, a: Action, id: nat)
    ensures var r := Next(env, s, a);
            && (!a.HealthCycle? ==> r.pool == s.pool)
            && (a.HealthCycle? ==> r.pool == ApplyBatch(env.params, s.pool, a.results) && r.requests == s.requests)
            && (!a.HealthCycle? && a.id != id ==>
                  && (id in r.requests <==> id in s.requests)
                  && (id in s.requests ==> r.requests[id] == s.requests[id]))
            && (a.Arrive? && a.id == id ==>
                  && id in r.requests
                  && r.requests[id] == if id in s.requests then s.requests[id] else Request(a.inbound, Arrived, []))
            && (a.Move? && a.id == id && id in s.requests ==>
                  && id in r.requests
                  && r.requests[id] == StepRequest(env, s.pool, s.requests[id], a.move))
  {
  }

  lemma {:induction false} ExecConcat(env: Env, s: System, a: seq<Action>, b: seq<Action>)
    ensures Exec(env, s, a + b) == Exec(env, Exec(env, s, a), b)
  {
    if b == [] {
      assert a + b == a;
    } else {
      ExecConcat(env, s, a, b[..|b| - 1]);
      assert (a + b)[..|a + b| - 1] == a + b[..|b| - 1];
    }
  }

  lemma ExecCons(env: Env, s: System, acts: seq<Action>)
    requires acts != []
    ensures Exec(env, s, acts) == Exec(env, Next(env, s, acts[0]), acts[1..])
  {
    ExecConcat(env, s, [acts[0]], acts[1..]);
    assert [acts[0]] + acts[1..] == acts && [acts[0]][..0] == [];
  }

  predicate MayRetry(env: Env, inbound: Inbound) {
    inbound.Post? && Retryable(env, inbound.body)
  }

  // ---- The moves in plain terms ----

  /** No HTTP answer, or one that counts against the endpoint. */
  predicate Unusable(u: Upstream) {
    u.NoAnswer? || u.status >= 500 || u.status == 429
  }

  /** Whether the endpoint failed by running into the deadline. */
  predicate TimedOut(u: Upstream) {
    u == NoAnswer(true)
  }

  /** The client is told of a failure: an error and a request observed for the endpoint, and no other one. */
  function ToldOfFailure(ep: Endpoint, timedOut: bool): seq<Event> {
    if timedOut then [ObserveUpstreamError(ep), Reply(504, null, false), ObserveRequest(ep, 504)]
    else [ObserveUpstreamError(ep), Reply(502, null, false), ObserveRequest(ep, 502)]
  }

  /** The client is given an answer; the error code of a body of less than 4096 bytes is observed. */
  function GivenAnswer(env: Env, ep: Endpoint, degraded: bool, status: int, body: Bytes): seq<Event> {
    (if 0 < |body| < 4096 && env.errorOf(body).Some? then [ObserveRPCError(ep, env.errorOf(body).value)] else [])
    + [Reply(status, ep, degraded), ObserveRequest(ep, status)]
  }

  /** What a request that is refused is told. */
  lemma RefusalMove(env: Env, pool: PoolState, r: Request, d: Draw)
    requires r.progress.Arrived? && (!r.inbound.Post? || r.inbound.body == [])
    ensures var next := StepRequest(env, pool, r, Select1(d));
            && Finished(next.progress)
            && next.log == r.log + [Reply(match r.inbound
                                          case Preflight => 204
                                          case WrongMethod => 405
                                          case TooLarge => 413
                                          case Unreadable => 400
                                          case Post(_) => 400, null, false)]
  {
  }

  /** The first selection: nobody healthy, or an endpoint chosen as it should be, and observed if degraded. */
  lemma SelectMove(env: Env, pool: PoolState, r: Request, d: Draw)
    requires r.progress.Arrived? && r.inbound.Post? && r.inbound.body != []
    ensures var next := StepRequest(env, pool, r, Select1(d));
            if forall o | o in pool.members :: !pool.health[o].healthy then
              && Finished(next.progress)
              && next.log == r.log + [ObserveUpstreamError(null), Reply(503, null, false)]
            else
              && next.progress.Chosen? && next.progress.c.pool == pool && next.progress.c.exclude == null
              && RightAnswer(env.params, pool, null, Selected(next.progress.c.endpoint, next.progress.c.degraded))
              && next.log == r.log + [Chose(next.progress.c)]
                 + if next.progress.c.degraded then [ObserveDegraded(next.progress.c.endpoint)] else []
  {
    SelectMeaning(env.params, env.band, pool, null, d);
    var next := Advance(env, pool, r.inbound, r.progress, Select1(d));
    assert next.Starved? || next.Chosen?;
  }

  lemma SendMove(env: Env, pool: PoolState, r: Request)
    requires r.progress.Chosen? || r.progress.Rechosen?
    ensures var next := StepRequest(env, pool, r, Send);
            && next.progress == (if r.progress.Chosen? then Waiting(r.progress.c)
                                 else Rewaiting(r.progress.c, r.progress.deadline, r.progress.alt))
            && next.log == r.log + [Sent(if r.progress.Chosen? then r.progress.c.endpoint else r.progress.alt.endpoint,
                                         BodyOf(r.inbound))]
  {
  }

  /** Main result: what becomes of the first endpoint's answer. A usable one is passed on; any other is reported
      to the client as 504 if the endpoint ran into the deadline and as 502 if not, unless a retry is allowed. */
  lemma AnswerMove(env: Env, pool: PoolState, r: Request, u: Upstream)
    requires r.progress.Waiting?
    ensures var c, next := r.progress.c, StepRequest(env, pool, r, Return(u));
            if !Unusable(u) then
              && Finished(next.progress)
              && next.log == r.log + ([Returned(c.endpoint, Answered(u.status, u.body))]
                                      + GivenAnswer(env, c.endpoint, c.degraded, u.status, u.body))
            else if MayRetry(env, r.inbound) then
              && next.progress == Broken(c, TimedOut(u))
              && next.log == r.log + [Returned(c.endpoint, Failed(TimedOut(u))), ObserveUpstreamError(c.endpoint)]
            else
              && Finished(next.progress)
              && next.log == r.log + ([Returned(c.endpoint, Failed(TimedOut(u)))]
                                      + ToldOfFailure(c.endpoint, TimedOut(u)))
  {
  }

  /** The retry: given up, with the failure observed once more, if the client has gone or nobody else is
      healthy; otherwise somebody else is chosen as it should be, and observed as the retry's target. */
  lemma RetryMove(env: Env, pool: PoolState, r: Request, gone: bool, d: Draw)
    requires r.progress.Broken?
    ensures var c, next := r.progress.c, StepRequest(env, pool, r, Retry(gone, d));
            if gone || forall o | o in pool.members && pool.health[o].healthy :: o == c.endpoint then
              && Finished(next.progress)
              && next.log == r.log + ToldOfFailure(c.endpoint, r.progress.deadline)
            else
              && next.progress.Rechosen? && next.progress.c == c && next.progress.deadline == r.progress.deadline
              && next.progress.alt.pool == pool && next.progress.alt.exclude == c.endpoint
              && RightAnswer(env.params, pool, c.endpoint,
                             Selected(next.progress.alt.endpoint, next.progress.alt.degraded))
              && next.log == r.log + [Chose(next.progress.alt), ObserveRetry(c.endpoint, next.progress.alt.endpoint)]
  {
    SelectMeaning(env.params, env.band, pool, r.progress.c.endpoint, d);
    var next := Advance(env, pool, r.inbound, r.progress, Retry(gone, d));
    assert next.Abandoned? || next.Rechosen?;
  }

  /** The second endpoint's answer ends the request; the header is still that of the first choice. */
  lemma SecondAnswerMove(env: Env, pool: PoolState, r: Request, u: Upstream)
    requires r.progress.Rewaiting?
    ensures var ep, next := r.progress.alt.endpoint, StepRequest(env, pool, r, Return(u));
            && Finished(next.progress)
            && if !Unusable(u) then
                 next.log == r.log + ([Returned(ep, Answered(u.status, u.body))]
                                      + GivenAnswer(env, ep, r.progress.c.degraded, u.status, u.body))
               else
                 next.log == r.log + ([Returned(ep, Failed(TimedOut(u)))] + ToldOfFailure(ep, TimedOut(u)))
  {
  }

  // ---- What a log says ----

  /** What is counted in a log. */
  datatype Kind = Sends | Failures | Replies | Requests | Retries | Errors

  function One(e: Event, k: Kind): int {
    var counted :=
      match k
      case Sends => e.Sent?
      case Failures => e.Returned? && e.attempt.Failed?
      case Replies => e.Reply?
      case Requests => e.ObserveRequest?
      case Retries => e.ObserveRetry?
      case Errors => e.ObserveUpstreamError?;
    if counted then 1 else 0
  }

  /** How many events of a kind a log shows. */
  function Count(log: seq<Event>, k: Kind): int {
    if log == [] then 0 else Count(log[..|log| - 1], k) + One(log[|log| - 1], k)
  }

  ghost predicate Shows(log: seq<Event>, k: Kind, n: int) {
    Count(log, k) == n
  }

  lemma {:induction false} CountConcat(a: seq<Event>, b: seq<Event>, k: Kind)
    ensures Count(a + b, k) == Count(a, k) + Count(b, k)
  {
    if b == [] {
      assert a + b == a;
    } else {
      CountConcat(a, b[..|b| - 1], k);
      assert (a + b)[..|a + b| - 1] == a + b[..|b| - 1];
    }
  }

  lemma Count1(a: Event, k: Kind)
    ensures Count([a], k) == One(a, k)
  {
    assert [a][..0] == [];
  }

  lemma Count2(a: Event, b: Event, k: Kind)
    ensures Count([a, b], k) == One(a, k) + One(b, k)
  {
    Count1(a, k);
    assert [a, b][..1] == [a];
  }

  lemma Count3(a: Event, b: Event, c: Event, k: Kind)
    ensures Count([a, b, c], k) == One(a, k) + One(b, k) + One(c, k)
  {
    Count2(a, b, k);
    assert [a, b, c][..2] == [a, b];
  }

  // ---- The log in closed form ----

  /** The point before. */
  function Before(pr: Progress): Progress
    requires !pr.Arrived?
  {
    match pr
    case Refused(_) => Arrived
    case Starved => Arrived
    case Chosen(_) => Arrived
    case Waiting(c) => Chosen(c)
    case Served(c, _, _) => Waiting(c)
    case Dropped(c, _) => Waiting(c)
    case Broken(c, _) => Waiting(c)
    case Abandoned(c, deadline) => Broken(c, deadline)
    case Rechosen(c, deadline, _) => Broken(c, deadline)
    case Rewaiting(c, deadline, alt) => Rechosen(c, deadline, alt)
    case Reanswered(c, deadline, alt, _, _) => Rewaiting(c, deadline, alt)
    case Redropped(c, deadline, alt, _) => Rewaiting(c, deadline, alt)
  }

  function Steps(pr: Progress): nat {
    match pr
    case Arrived => 0
    case Refused(_) => 1
    case Starved => 1
    case Chosen(_) => 1
    case Waiting(_) => 2
    case Served(_, _, _) => 3
    case Dropped(_, _) => 3
    case Broken(_, _) => 3
    case Abandoned(_, _) => 4
    case Rechosen(_, _, _) => 4
    case Rewaiting(_, _, _) => 5
    case Reanswered(_, _, _, _, _) => 6
    case Redropped(_, _, _, _) => 6
  }

  function Transcript(env: Env, body: Bytes, pr: Progress): seq<Event>
    decreases Steps(pr)
  {
    if pr.Arrived? then [] else Transcript(env, body, Before(pr)) + Emitted(env, body, pr)
  }

  ghost predicate WellChosen(p: Params, c: Choice, exclude: Endpoint?) {
    && c.exclude == exclude
    && Eligible(c.pool, exclude, c.endpoint)
    && (c.degraded <==> !Current(p, c.pool, c.endpoint))
    && (c.degraded <==> !SomeCurrent(p, c.pool, exclude))
  }

  /** What is known of a request at each point. */
  ghost predicate Legit(env: Env, inbound: Inbound, pr: Progress) {
    if pr.Arrived? then true
    else if pr.Refused? then Refusal(inbound) == Some(pr.status)
    else if Refusal(inbound).Some? then false
    else if pr.Starved? then true
    else
      && WellChosen(env.params, pr.c, null)
      && (pr.Dropped? ==> !Retryable(env, inbound.body))
      && (pr.Broken? || pr.Abandoned? || Retried(pr) ==> Retryable(env, inbound.body))
      && (Retried(pr) ==> WellChosen(env.params, pr.alt, pr.c.endpoint))
      && (pr.Served? || pr.Reanswered? ==> pr.status < 500 && pr.status != 429)
  }

  /** Whether a second endpoint has been chosen. */
  predicate Retried(pr: Progress) {
    pr.Rechosen? || pr.Rewaiting? || pr.Reanswered? || pr.Redropped?
  }

  ghost predicate ReqInv(env: Env, r: Request) {
    && r.log == Transcript(env, BodyOf(r.inbound), r.progress)
    && Legit(env, r.inbound, r.progress)
  }

  lemma StepKeeps(env: Env, pool: PoolState, r: Request, m: Move)
    requires ReqInv(env, r)
    ensures ReqInv(env, StepRequest(env, pool, r, m))
  {
    var pr := Advance(env, pool, r.inbound, r.progress, m);
    if pr != r.progress {
      AdvanceIsNext(env, pool, r.inbound, r.progress, m);
    }
  }

  lemma AdvanceIsNext(env: Env, pool: PoolState, inbound: Inbound, pr: Progress, m: Move)
    requires Legit(env, inbound, pr)
    ensures var next := Advance(env, pool, inbound, pr, m);
            Legit(env, inbound, next) && (next == pr || (!next.Arrived? && Before(next) == pr))
  {
    if m.Select1? {
      FirstChoice(env, pool, inbound, pr, m);
    } else if m.Retry? {
      SecondChoice(env, pool, inbound, pr, m);
    } else if m.Return? {
      AnswerArrives(env, pool, inbound, pr, m);
    }
  }

  lemma AnswerArrives(env: Env, pool: PoolState, inbound: Inbound, pr: Progress, m: Move)
    requires Legit(env, inbound, pr) && m.Return?
    ensures var next := Advance(env, pool, inbound, pr, m);
            Legit(env, inbound, next) && (next == pr || (!next.Arrived? && Before(next) == pr))
  {
  }

  lemma FirstChoice(env: Env, pool: PoolState, inbound: Inbound, pr: Progress, m: Move)
    requires Legit(env, inbound, pr) && m.Select1?
    ensures var next := Advance(env, pool, inbound, pr, m);
            Legit(env, inbound, next) && (next == pr || (!next.Arrived? && Before(next) == pr))
  {
    SelectSound(env.params, env.band, pool, null, m.draw);
  }

  lemma SecondChoice(env: Env, pool: PoolState, inbound: Inbound, pr: Progress, m: Move)
    requires Legit(env, inbound, pr) && m.Retry?
    ensures var next := Advance(env, pool, inbound, pr, m);
            Legit(env, inbound, next) && (next == pr || (!next.Arrived? && Before(next) == pr))
  {
    if pr.Broken? {
      SelectSound(env.params, env.band, pool, pr.c.endpoint, m.draw);
    }
  }

  lemma {:induction false} RunKeeps(env: Env, s: System, acts: seq<Action>, id: nat)
    requires s.requests == map[] && id in Exec(env, s, acts).requests
    ensures ReqInv(env, Exec(env, s, acts).requests[id])
  {
    var n := |acts| - 1;
    var before, a := Exec(env, s, acts[..n]), acts[n];
    if id in before.requests {
      RunKeeps(env, s, acts[..n], id);
      if a.Move? && a.id == id {
        StepKeeps(env, before.pool, before.requests[id], a.move);
      }
    }
  }

  /** Sends, failed sends, responses, requests, retries and upstream errors observed. */
  datatype Row = Row(sends: int, failures: int, replies: int, requests: int, retries: int, errors: int) {
    function At(k: Kind): int {
      match k
      case Sends => sends
      case Failures => failures
      case Replies => replies
      case Requests => requests
      case Retries => retries
      case Errors => errors
    }
  }

  /** The protocol at a glance: the counts of a request's log at each point. */
  function Table(pr: Progress): Row {
    match pr
    case Arrived => Row(0, 0, 0, 0, 0, 0)
    case Refused(_) => Row(0, 0, 1, 0, 0, 0)
    case Starved => Row(0, 0, 1, 0, 0, 1)
    case Chosen(_) => Row(0, 0, 0, 0, 0, 0)
    case Waiting(_) => Row(1, 0, 0, 0, 0, 0)
    case Served(_, _, _) => Row(1, 0, 1, 1, 0, 0)
    case Dropped(_, _) => Row(1, 1, 1, 1, 0, 1)
    case Broken(_, _) => Row(1, 1, 0, 0, 0, 1)
    case Abandoned(_, _) => Row(1, 1, 1, 1, 0, 2)
    case Rechosen(_, _, _) => Row(1, 1, 0, 0, 1, 1)
    case Rewaiting(_, _, _) => Row(2, 1, 0, 0, 1, 1)
    case Reanswered(_, _, _, _, _) => Row(2, 1, 1, 1, 1, 1)
    case Redropped(_, _, _, _) => Row(2, 2, 1, 1, 1, 2)
  }

  lemma {:induction false} TableIsRight(env: Env, body: Bytes, pr: Progress, k: Kind)
    ensures Shows(Transcript(env, body, pr), k, Table(pr).At(k))
    decreases Steps(pr)
  {
    if !pr.Arrived? {
      TableIsRight(env, body, Before(pr), k);
      CountConcat(Transcript(env, body, Before(pr)), Emitted(env, body, pr), k);
      EmittedCounts(env, body, pr, k);
    }
  }

  lemma EmittedCounts(env: Env, body: Bytes, pr: Progress, k: Kind)
    requires !pr.Arrived?
    ensures Count(Emitted(env, body, pr), k) == Table(pr).At(k) - Table(Before(pr)).At(k)
  {
    if Retried(pr) {
      RetryCounts(env, body, pr, k);
    } else {
      match pr
      case Refused(status) => Count1(Reply(status, null, false), k);
      case Starved => Count2(ObserveUpstreamError(null), Reply(503, null, false), k);
      case Chosen(c) => ChosenCounts(c, k);
      case Waiting(c) => Count1(Sent(c.endpoint, body), k);
      case Served(c, status, b) => SuccessCounts(env, c.endpoint, c.degraded, status, b, k);
      case Dropped(c, deadline) => FailureCounts(c.endpoint, deadline, k);
      case Broken(c, deadline) => Count2(Returned(c.endpoint, Failed(deadline)), ObserveUpstreamError(c.endpoint), k);
      case Abandoned(c, deadline) => FailureCounts(c.endpoint, deadline, k);
    }
  }

  lemma RetryCounts(env: Env, body: Bytes, pr: Progress, k: Kind)
    requires Retried(pr)
    ensures Count(Emitted(env, body, pr), k) == Table(pr).At(k) - Table(Before(pr)).At(k)
  {
    match pr
    case Rechosen(c, _, alt) => Count2(Chose(alt), ObserveRetry(c.endpoint, alt.endpoint), k);
    case Rewaiting(_, _, alt) => Count1(Sent(alt.endpoint, body), k);
    case Reanswered(c, _, alt, status, b) => SuccessCounts(env, alt.endpoint, c.degraded, status, b, k);
    case Redropped(_, _, alt, again) => FailureCounts(alt.endpoint, again, k);
  }

  lemma ChosenCounts(c: Choice, k: Kind)
    ensures Count([Chose(c)] + if c.degraded then [ObserveDegraded(c.endpoint)] else [], k) == 0
  {
    Count1(Chose(c), k);
    Count1(ObserveDegraded(c.endpoint), k);
    CountConcat([Chose(c)], if c.degraded then [ObserveDegraded(c.endpoint)] else [], k);
  }

  lemma FailureCounts(ep: Endpoint, deadline: bool, k: Kind)
    ensures Count(FailureEvents(ep, deadline), k) == Row(0, 0, 1, 1, 0, 1).At(k)
    ensures Count([Returned(ep, Failed(deadline))] + FailureEvents(ep, deadline), k) == Row(0, 1, 1, 1, 0, 1).At(k)
  {
    var status := if deadline then 504 else 502;
    Count3(ObserveUpstreamError(ep), Reply(status, null, false), ObserveRequest(ep, status), k);
    Count1(Returned(ep, Failed(deadline)), k);
    CountConcat([Returned(ep, Failed(deadline))], FailureEvents(ep, deadline), k);
  }

  lemma SuccessCounts(env: Env, ep: Endpoint, degraded: bool, status: int, body: Bytes, k: Kind)
    ensures Count([Returned(ep, Answered(status, body))] + SuccessEvents(env, ep, degraded, status, body), k)
         == Row(0, 0, 1, 1, 0, 0).At(k)
  {
    var code := ErrorCode(env.errorOf, body);
    var first := if code.Some? then [ObserveRPCError(ep, code.value)] else [];
    var rest := [Reply(status, ep, degraded), ObserveRequest(ep, status)];
    if code.Some? {
      Count1(ObserveRPCError(ep, code.value), k);
    }
    Count2(Reply(status, ep, degraded), ObserveRequest(ep, status), k);
    CountConcat(first, rest, k);
    Count1(Returned(ep, Answered(status, body)), k);
    CountConcat([Returned(ep, Answered(status, body))], first + rest, k);
  }

  // ---- Targets ----

  /** The endpoints a log shows the request was sent to, in order. */
  function Targets(log: seq<Event>): seq<Endpoint> {
    if log == [] then []
    else
      var e := log[|log| - 1];
      Targets(log[..|log| - 1]) + if e.Sent? then [e.endpoint] else []
  }

  ghost predicate SentTo(log: seq<Event>, targets: seq<Endpoint>) {
    Targets(log) == targets
  }

  lemma {:induction false} NoTargets(log: seq<Event>, rest: seq<Event>)
    requires forall e | e in rest :: !e.Sent?
    ensures Targets(log + rest) == Targets(log)
  {
    if rest == [] {
      assert log + rest == log;
    } else {
      var n := |rest| - 1;
      NoTargets(log, rest[..n]);
      assert rest[n] in rest && (log + rest)[..|log + rest| - 1] == log + rest[..n];
    }
  }

  function TargetTable(pr: Progress): seq<Endpoint> {
    if pr.Arrived? || pr.Refused? || pr.Starved? || pr.Chosen? then []
    else if pr.Rewaiting? || pr.Reanswered? || pr.Redropped? then [pr.c.endpoint, pr.alt.endpoint]
    else [pr.c.endpoint]
  }

  lemma {:induction false} TargetsAreRight(env: Env, body: Bytes, pr: Progress)
    ensures SentTo(Transcript(env, body, pr), TargetTable(pr))
    decreases Steps(pr)
  {
    if !pr.Arrived? {
      TargetsAreRight(env, body, Before(pr));
      NextTargets(env, body, pr, Transcript(env, body, Before(pr)));
    }
  }

  lemma NextTargets(env: Env, body: Bytes, pr: Progress, log: seq<Event>)
    requires !pr.Arrived? && SentTo(log, TargetTable(Before(pr)))
    ensures SentTo(log + Emitted(env, body, pr), TargetTable(pr))
  {
    if pr.Waiting? || pr.Rewaiting? {
      var ep := if pr.Waiting? then pr.c.endpoint else pr.alt.endpoint;
      OneTarget(log, ep, body);
      assert TargetTable(pr) == TargetTable(Before(pr)) + [ep];
    } else {
      SendsNothing(env, body, pr);
      NoTargets(log, Emitted(env, body, pr));
      SameTargets(pr);
    }
  }

  lemma SameTargets(pr: Progress)
    requires !pr.Arrived? && !pr.Waiting? && !pr.Rewaiting?
    ensures TargetTable(pr) == TargetTable(Before(pr))
  {
  }

  lemma OneTarget(log: seq<Event>, ep: Endpoint, body: Bytes)
    ensures Targets(log + [Sent(ep, body)]) == Targets(log) + [ep]
  {
    assert (log + [Sent(ep, body)])[..|log|] == log;
  }

  lemma SendsNothing(env: Env, body: Bytes, pr: Progress)
    requires !pr.Waiting? && !pr.Rewaiting?
    ensures forall e | e in Emitted(env, body, pr) :: !e.Sent?
  {
  }

  /** Whether an endpoint has been chosen. */
  predicate HasChoice(pr: Progress) {
    !pr.Arrived? && !pr.Refused? && !pr.Starved?
  }

  /** Every forward carries the request's body, and every target was chosen. */
  lemma {:induction false} SendFacts(env: Env, body: Bytes, pr: Progress)
    ensures var log := Transcript(env, body, pr);
            && (forall e | e in log && e.Sent? :: e.body == body)
            && (HasChoice(pr) ==> Chose(pr.c) in log)
            && (|TargetTable(pr)| == 2 ==> Chose(pr.alt) in log)
    decreases Steps(pr)
  {
    if !pr.Arrived? {
      SendFacts(env, body, Before(pr));
      if pr.Chosen? {
        assert Chose(pr.c) in Emitted(env, body, pr);
      } else if pr.Waiting? {
      } else if pr.Rewaiting? {
        assert Chose(pr.alt) in Emitted(env, body, Before(pr));
      } else {
        SendsNothing(env, body, pr);
      }
    }
  }

  /** Requests are counted for, and answered from, the last endpoint tried. */
  ghost predicate EndsWell(env: Env, pr: Progress, e: Event) {
    var targets := TargetTable(pr);
    && (e.ObserveRequest? ==> Finished(pr) && targets != [] && e.endpoint == targets[|targets| - 1])
    && (e.Reply? && e.servedBy != null ==>
          && (pr.Served? || pr.Reanswered?)
          && e.status == pr.status && e.degraded == pr.c.degraded && e.servedBy == targets[|targets| - 1])
  }

  lemma {:induction false} EndFacts(env: Env, body: Bytes, pr: Progress)
    ensures forall e | e in Transcript(env, body, pr) :: EndsWell(env, pr, e)
    decreases Steps(pr)
  {
    if !pr.Arrived? {
      EndFacts(env, body, Before(pr));
      forall e | e in Transcript(env, body, pr) ensures EndsWell(env, pr, e) {
        if e in Transcript(env, body, Before(pr)) {
          assert EndsWell(env, Before(pr), e);
        } else {
          EndEmitted(env, body, pr, e);
        }
      }
    }
  }

  lemma EndEmitted(env: Env, body: Bytes, pr: Progress, e: Event)
    requires e in Emitted(env, body, pr)
    ensures EndsWell(env, pr, e)
  {
  }

  // ---- The theorems ----

  /** A log in which the request is forwarded at most once if it is a write or a batch and at most twice
      otherwise, the second time only after a failed first, with its own body, to different endpoints. */
  ghost predicate ForwardedSafely(env: Env, r: Request) {
    && Count(r.log, Sends) <= (if MayRetry(env, r.inbound) then 2 else 1)
    && Count(r.log, Sends) <= Count(r.log, Failures) + 1
    && Count(r.log, Sends) == |Targets(r.log)|
    && NoneTwice(Targets(r.log))
    && forall e | e in r.log && e.Sent? :: r.inbound == Post(e.body)
  }

  /** The log shows ep chosen from the healthy members of a pool, other than exclude. */
  ghost predicate WasHealthy(log: seq<Event>, ep: Endpoint, exclude: Endpoint?) {
    exists j :: 0 <= j < |log| && log[j].Chose? && log[j].choice.endpoint == ep
                && Eligible(log[j].choice.pool, exclude, ep)
  }

  /** Every endpoint sent to was, when it was chosen, a healthy member of the pool other than the one
      already tried. */
  ghost predicate TargetsWereHealthy(log: seq<Event>) {
    var targets := Targets(log);
    forall k | 0 <= k < |targets| :: WasHealthy(log, targets[k], if k == 0 then null else targets[k - 1])
  }

  /** Main result: at most once for writes and batches, at most twice otherwise, in every reachable
      state, however requests and health cycles are interleaved. */
  lemma AtMostOnce(env: Env, s: System, acts: seq<Action>, id: nat)
    requires s.requests == map[] && id in Exec(env, s, acts).requests
    ensures ForwardedSafely(env, Exec(env, s, acts).requests[id])
    ensures TargetsWereHealthy(Exec(env, s, acts).requests[id].log)
  {
    RunKeeps(env, s, acts, id);
    SafeRequest(env, Exec(env, s, acts).requests[id]);
    HealthyTargets(env, Exec(env, s, acts).requests[id]);
  }

  lemma SafeRequest(env: Env, r: Request)
    requires ReqInv(env, r)
    ensures ForwardedSafely(env, r)
  {
    var row := Table(r.progress);
    CountIs(env, r, Sends, row.sends);
    CountIs(env, r, Failures, row.failures);
    SendRow(env, r.inbound, r.progress);
    TargetsAreRight(env, BodyOf(r.inbound), r.progress);
    SentBodies(env, r);
  }

  lemma CountIs(env: Env, r: Request, k: Kind, n: int)
    requires ReqInv(env, r) && n == Table(r.progress).At(k)
    ensures Shows(r.log, k, n)
  {
    TableIsRight(env, BodyOf(r.inbound), r.progress, k);
  }

  lemma SendRow(env: Env, inbound: Inbound, pr: Progress)
    requires Legit(env, inbound, pr)
    ensures NoneTwice(TargetTable(pr))
    ensures var row := Table(pr);
            |TargetTable(pr)| == row.sends <= (if MayRetry(env, inbound) then 2 else 1) && row.sends <= row.failures + 1
  {
  }

  lemma SentBodies(env: Env, r: Request)
    requires ReqInv(env, r)
    ensures forall e | e in r.log && e.Sent? :: r.inbound == Post(e.body)
  {
    SendFacts(env, BodyOf(r.inbound), r.progress);
    if !r.inbound.Post? {
      NothingSentUnlessPosted(env, r);
    }
  }

  lemma NothingSentUnlessPosted(env: Env, r: Request)
    requires ReqInv(env, r) && !r.inbound.Post?
    ensures forall e | e in r.log :: !e.Sent?
  {
  }

  lemma HealthyTargets(env: Env, r: Request)
    requires ReqInv(env, r)
    ensures TargetsWereHealthy(r.log)
  {
    var pr := r.progress;
    TargetsAreRight(env, BodyOf(r.inbound), pr);
    SendFacts(env, BodyOf(r.inbound), pr);
    if TargetTable(pr) != [] {
      WellChosenWasHealthy(env.params, r.log, pr.c, null);
    }
    if |TargetTable(pr)| == 2 {
      WellChosenWasHealthy(env.params, r.log, pr.alt, pr.c.endpoint);
    }
  }

  lemma WellChosenWasHealthy(p: Params, log: seq<Event>, c: Choice, exclude: Endpoint?)
    requires Chose(c) in log && WellChosen(p, c, exclude)
    ensures WasHealthy(log, c.endpoint, exclude)
  {
    var j :| 0 <= j < |log| && log[j] == Chose(c);
    assert log[j].choice == c;
  }

  /** Main result: a request gets exactly one response, at the point where it is finished. */
  lemma OneResponse(env: Env, s: System, acts: seq<Action>, id: nat)
    requires s.requests == map[] && id in Exec(env, s, acts).requests
    ensures var r := Exec(env, s, acts).requests[id];
            Count(r.log, Replies) == if Finished(r.progress) then 1 else 0
  {
    RunKeeps(env, s, acts, id);
    ResponseCount(env, Exec(env, s, acts).requests[id]);
  }

  lemma ResponseCount(env: Env, r: Request)
    requires ReqInv(env, r)
    ensures Count(r.log, Replies) == if Finished(r.progress) then 1 else 0
  {
    CountIs(env, r, Replies, Table(r.progress).replies);
    ReplyRow(r.progress);
  }

  lemma ReplyRow(pr: Progress)
    ensures Table(pr).replies == if Finished(pr) then 1 else 0
  {
  }

  /** A finished request stays as it is. */
  lemma {:induction false} FinishedForGood(env: Env, s: System, acts: seq<Action>, id: nat)
    requires id in s.requests && Finished(s.requests[id].progress)
    ensures id in Exec(env, s, acts).requests && Exec(env, s, acts).requests[id] == s.requests[id]
  {
    if acts != [] {
      FinishedForGood(env, s, acts[..|acts| - 1], id);
    }
  }

  /** An upstream error is counted once per failed forward, and once more exactly when a failure that could
      have been retried was not. */
  ghost predicate CountsAddUp(env: Env, r: Request) {
    var tried := |Targets(r.log)|;
    && Count(r.log, Requests) == 1
    && Count(r.log, Retries) == tried - 1
    && Count(r.log, Errors) == Count(r.log, Failures) +
         (if MayRetry(env, r.inbound) && tried == 1 && Count(r.log, Failures) == 1 then 1 else 0)
  }

  /** The request is counted for the endpoint tried last, and only that one's answer is passed on. */
  ghost predicate NamesLast(log: seq<Event>, last: Endpoint) {
    forall e | e in log ::
      && (e.ObserveRequest? ==> e.endpoint == last)
      && (e.Reply? && e.servedBy != null ==> e.servedBy == last && e.status < 500 && e.status != 429)
  }

  /** The books of a finished request that was forwarded. */
  ghost predicate AccountedFor(env: Env, r: Request) {
    var targets := Targets(r.log);
    targets != [] && Finished(r.progress) ==> CountsAddUp(env, r) && NamesLast(r.log, targets[|targets| - 1])
  }

  /** Main result: the metrics add up in every run. */
  lemma Accounting(env: Env, s: System, acts: seq<Action>, id: nat)
    requires s.requests == map[] && id in Exec(env, s, acts).requests
    ensures AccountedFor(env, Exec(env, s, acts).requests[id])
  {
    RunKeeps(env, s, acts, id);
    AccountedRequest(env, Exec(env, s, acts).requests[id]);
  }

  lemma AccountedRequest(env: Env, r: Request)
    requires ReqInv(env, r)
    ensures AccountedFor(env, r)
  {
    TargetsAreRight(env, BodyOf(r.inbound), r.progress);
    if TargetTable(r.progress) != [] && Finished(r.progress) {
      AccountedCounts(env, r);
      AccountedNames(env, r);
    }
  }

  lemma AccountedCounts(env: Env, r: Request)
    requires ReqInv(env, r) && TargetTable(r.progress) != [] && Finished(r.progress)
    ensures CountsAddUp(env, r)
  {
    TargetsAreRight(env, BodyOf(r.inbound), r.progress);
    var row := Table(r.progress);
    CountIs(env, r, Requests, row.requests);
    CountIs(env, r, Retries, row.retries);
    CountIs(env, r, Errors, row.errors);
    CountIs(env, r, Failures, row.failures);
    BookRow(env, r.inbound, r.progress);
  }

  lemma AccountedNames(env: Env, r: Request)
    requires ReqInv(env, r) && TargetTable(r.progress) != [] && Finished(r.progress)
    ensures NamesLast(r.log, TargetTable(r.progress)[|TargetTable(r.progress)| - 1])
  {
    EndFacts(env, BodyOf(r.inbound), r.progress);
    forall e | e in r.log ensures EndsWell(env, r.progress, e) {}
  }

  lemma BookRow(env: Env, inbound: Inbound, pr: Progress)
    requires Legit(env, inbound, pr) && TargetTable(pr) != [] && Finished(pr)
    ensures var row, tried := Table(pr), |TargetTable(pr)|;
            && row.requests == 1 && row.retries == tried - 1
            && row.errors == row.failures +
                 if MayRetry(env, inbound) && tried == 1 && row.failures == 1 then 1 else 0
  {
  }

  /** A response tells what the last endpoint tried came to: its own status if it answered, and
      otherwise whether it ran into the deadline. */
  ghost predicate TellsLastAttempt(log: seq<Event>, targets: seq<Endpoint>, e: Event) {
    e.Reply? && targets != [] ==>
      var last := targets[|targets| - 1];
      if e.servedBy != null then
        e.servedBy == last && exists body :: Returned(last, Answered(e.status, body)) in log
      else
        e.status in {502, 504} && Returned(last, Failed(e.status == 504)) in log
  }

  /** Main result: no response misreports the attempt it stands for. */
  lemma RepliesAreTruthful(env: Env, s: System, acts: seq<Action>, id: nat, e: Event)
    requires s.requests == map[] && id in Exec(env, s, acts).requests
    requires e in Exec(env, s, acts).requests[id].log
    ensures var log := Exec(env, s, acts).requests[id].log; TellsLastAttempt(log, Targets(log), e)
  {
    RunKeeps(env, s, acts, id);
    var r := Exec(env, s, acts).requests[id];
    TargetsAreRight(env, BodyOf(r.inbound), r.progress);
    if e.Reply? {
      ReplyFacts(env, BodyOf(r.inbound), r.progress, e);
    }
  }

  /** What the last attempt of a request came to. */
  function LastAttempt(pr: Progress): Event
    requires Finished(pr) && HasChoice(pr)
  {
    match pr
    case Served(c, status, body) => Returned(c.endpoint, Answered(status, body))
    case Dropped(c, deadline) => Returned(c.endpoint, Failed(deadline))
    case Abandoned(c, deadline) => Returned(c.endpoint, Failed(deadline))
    case Reanswered(_, _, alt, status, body) => Returned(alt.endpoint, Answered(status, body))
    case Redropped(_, _, alt, again) => Returned(alt.endpoint, Failed(again))
  }

  lemma ReplyFacts(env: Env, body: Bytes, pr: Progress, e: Event)
    requires e in Transcript(env, body, pr) && e.Reply?
    ensures TellsLastAttempt(Transcript(env, body, pr), TargetTable(pr), e)
  {
    NoReplyBefore(env, body, pr, e);
    if HasChoice(pr) {
      ReplyMatches(env, body, pr, e);
      AttemptLogged(env, body, pr);
    }
  }

  /** The response of a request that was forwarded, against its last attempt. */
  ghost predicate Matches(last: Event, e: Event) {
    && last.Returned? && e.Reply?
    && if e.servedBy != null then
         last.endpoint == e.servedBy && last.attempt.Answered? && last.attempt.status == e.status
       else
         e.status in {502, 504} && last.attempt == Failed(e.status == 504)
  }

  lemma ReplyMatches(env: Env, body: Bytes, pr: Progress, e: Event)
    requires Finished(pr) && HasChoice(pr) && e in Emitted(env, body, pr) && e.Reply?
    ensures Matches(LastAttempt(pr), e) && LastAttempt(pr).endpoint == TargetTable(pr)[|TargetTable(pr)| - 1]
  {
  }

  lemma AttemptLogged(env: Env, body: Bytes, pr: Progress)
    requires Finished(pr) && HasChoice(pr)
    ensures LastAttempt(pr) in Transcript(env, body, pr)
  {
    if pr.Abandoned? {
      assert LastAttempt(pr) in Emitted(env, body, Before(pr));
    } else {
      assert LastAttempt(pr) in Emitted(env, body, pr);
    }
  }

  /** The response is the last thing a request does. */
  lemma {:induction false} NoReplyBefore(env: Env, body: Bytes, pr: Progress, e: Event)
    requires e in Transcript(env, body, pr) && e.Reply?
    ensures Finished(pr) && e in Emitted(env, body, pr)
    decreases Steps(pr)
  {
    if e in Transcript(env, body, Before(pr)) {
      NoReplyBefore(env, body, Before(pr), e);
    }
  }

  /** The log shows a response with an endpoint's own status. */
  ghost predicate PassedOn(log: seq<Event>, status: int) {
    exists e :: e in log && e.Reply? && e.servedBy != null && e.status == status
  }

  lemma Stepped(env: Env, pool: PoolState, r: Request, m: Move) returns (next: Request)
    requires ReqInv(env, r)
    ensures next == StepRequest(env, pool, r, m) && ReqInv(env, next)
    ensures next.inbound == r.inbound && next.progress == Advance(env, pool, r.inbound, r.progress, m)
  {
    next := StepRequest(env, pool, r, m);
    StepKeeps(env, pool, r, m);
  }

  /** An HTTP answer reaches the client as it is exactly if it is neither 5xx nor 429. */
  lemma AnswerPassesThrough(env: Env, pool: PoolState, r: Request, status: int, body: Bytes)
    requires ReqInv(env, r) && (r.progress.Waiting? || r.progress.Rewaiting?)
    ensures PassedOn(StepRequest(env, pool, r, Return(Http(status, body))).log, status)
       <==> status < 500 && status != 429
  {
    var next := Stepped(env, pool, r, Return(Http(status, body)));
    var answered := next.progress.Served? || next.progress.Reanswered?;
    assert answered <==> status < 500 && status != 429;
    assert answered ==> next.progress.status == status;
    OwnStatus(env, next, status);
  }

  lemma OwnStatus(env: Env, r: Request, status: int)
    requires ReqInv(env, r)
    ensures PassedOn(r.log, status) <==> (r.progress.Served? || r.progress.Reanswered?) && r.progress.status == status
  {
    EndFacts(env, BodyOf(r.inbound), r.progress);
    if e :| e in r.log && e.Reply? && e.servedBy != null && e.status == status {
      assert EndsWell(env, r.progress, e);
    }
    if r.progress.Served? || r.progress.Reanswered? {
      ReplyLogged(env, BodyOf(r.inbound), r.progress);
    }
  }

  lemma ReplyLogged(env: Env, body: Bytes, pr: Progress)
    requires pr.Served? || pr.Reanswered?
    ensures Reply(pr.status, if pr.Served? then pr.c.endpoint else pr.alt.endpoint, pr.c.degraded)
         in Transcript(env, body, pr)
  {
    var ep := if pr.Served? then pr.c.endpoint else pr.alt.endpoint;
    assert Reply(pr.status, ep, pr.c.degraded) in SuccessEvents(env, ep, pr.c.degraded, pr.status, pr.body);
  }

  /** This move makes this choice, in this pool. */
  predicate Makes(env: Env, pool: PoolState, m: Move, c: Choice) {
    match m
    case Select1(d) =>
      && c.pool == pool && c.exclude == null
      && Select(env.params, env.band, pool, null, d) == Selected(c.endpoint, c.degraded)
    case Retry(gone, d) =>
      && c.pool == pool && c.exclude != null && !gone
      && Select(env.params, env.band, pool, c.exclude, d) == Selected(c.endpoint, c.degraded)
    case _ => false
  }

  /** Action t of a run is the request's own selection that makes this choice: the choice is not in its
      log before and is in it from then on. */
  ghost predicate MadeAt(env: Env, s: System, acts: seq<Action>, id: nat, c: Choice, t: int) {
    && 0 <= t < |acts| && acts[t].Move? && acts[t].id == id
    && var before, after := Exec(env, s, acts[..t]), Exec(env, s, acts[..t + 1]);
       && id in before.requests && id in after.requests
       && Chose(c) !in before.requests[id].log && Chose(c) in after.requests[id].log
       && Makes(env, before.pool, acts[t].move, c)
  }

  /** Every choice was made by a selection of the request itself, in the pool as it was at that moment. */
  lemma {:induction false} ChoicesAreFromTheRun(env: Env, s: System, acts: seq<Action>, id: nat, c: Choice)
    requires s.requests == map[] && id in Exec(env, s, acts).requests
    requires Chose(c) in Exec(env, s, acts).requests[id].log
    ensures exists t :: MadeAt(env, s, acts, id, c, t)
  {
    var n := |acts| - 1;
    var before := Exec(env, s, acts[..n]);
    if id in before.requests && Chose(c) in before.requests[id].log {
      ChoicesAreFromTheRun(env, s, acts[..n], id, c);
      var t :| MadeAt(env, s, acts[..n], id, c, t);
      MadeEarlier(env, s, acts, id, c, t);
    } else {
      NewChoice(env, before, acts[n], id, c);
      assert acts[..n + 1] == acts;
      assert MadeAt(env, s, acts, id, c, n);
    }
  }

  lemma MadeEarlier(env: Env, s: System, acts: seq<Action>, id: nat, c: Choice, t: int)
    requires acts != [] && MadeAt(env, s, acts[..|acts| - 1], id, c, t)
    ensures MadeAt(env, s, acts, id, c, t)
  {
    var fewer := acts[..|acts| - 1];
    assert fewer[..t] == acts[..t] && fewer[..t + 1] == acts[..t + 1];
  }

  lemma NewChoice(env: Env, s: System, a: Action, id: nat, c: Choice)
    requires id in Next(env, s, a).requests && Chose(c) in Next(env, s, a).requests[id].log
    requires id in s.requests ==> Chose(c) !in s.requests[id].log
    ensures a.Move? && a.id == id && id in s.requests && Makes(env, s.pool, a.move, c)
  {
    if id in s.requests && a.Move? && a.id == id {
      var r := s.requests[id];
      var pr := Advance(env, s.pool, r.inbound, r.progress, a.move);
      EmittedChoice(env, BodyOf(r.inbound), pr, c);
    }
  }

  lemma EmittedChoice(env: Env, body: Bytes, pr: Progress, c: Choice)
    ensures Chose(c) in Emitted(env, body, pr) ==> pr == Chosen(c) || (pr.Rechosen? && pr.alt == c)
  {
  }

  // ---- The degraded header ----

  /** The choice of the endpoint that answered. */
  function LastChoice(pr: Progress): Choice
    requires HasChoice(pr)
  {
    if Retried(pr) then pr.alt else pr.c
  }

  /** Main result: the header, which tells about the first choice, is right about the endpoint that answered
      exactly if there was no retry, or some eligible endpoint was current at the first selection iff some
      eligible endpoint other than the one that failed was current at the second. */
  lemma DegradedHeader(env: Env, s: System, acts: seq<Action>, id: nat, e: Event)
    requires s.requests == map[] && id in Exec(env, s, acts).requests
    requires e in Exec(env, s, acts).requests[id].log && e.Reply? && e.servedBy != null
    ensures var pr := Exec(env, s, acts).requests[id].progress;
            && (pr.Served? || pr.Reanswered?)
            && var last := LastChoice(pr);
               && e.servedBy == last.endpoint && last.endpoint in last.pool.members
               && (e.degraded == !Current(env.params, last.pool, last.endpoint) <==>
                     || pr.Served?
                     || (SomeCurrent(env.params, pr.c.pool, null) <==>
                           SomeCurrent(env.params, last.pool, pr.c.endpoint)))
  {
    RunKeeps(env, s, acts, id);
    var r := Exec(env, s, acts).requests[id];
    EndFacts(env, BodyOf(r.inbound), r.progress);
    assert EndsWell(env, r.progress, e);
  }

  /** What tells anybody that a request fell back. */
  predicate SaysDegraded(e: Event) {
    e.ObserveDegraded? || (e.Reply? && e.degraded)
  }

  lemma {:induction false} DegradedEvents(env: Env, body: Bytes, pr: Progress)
    ensures forall e | e in Transcript(env, body, pr) && SaysDegraded(e) :: HasChoice(pr) && pr.c.degraded
    decreases Steps(pr)
  {
    if !pr.Arrived? {
      DegradedEvents(env, body, Before(pr));
      forall e | e in Emitted(env, body, pr) && SaysDegraded(e) ensures HasChoice(pr) && pr.c.degraded {}
    }
  }

  /** The health cycles of a run are whole ones. */
  ghost predicate WholeRun(members: seq<Endpoint>, acts: seq<Action>) {
    forall k | 0 <= k < |acts| && acts[k].HealthCycle? :: FullCycle(members, acts[k].results)
  }

  lemma {:induction false} PoolStaysSteady(env: Env, s: System, acts: seq<Action>)
    requires Steady(env.params, s.pool) && WholeRun(s.pool.members, acts)
    ensures Exec(env, s, acts).pool.members == s.pool.members
    ensures Steady(env.params, Exec(env, s, acts).pool)
  {
    if acts != [] {
      var n := |acts| - 1;
      PoolStaysSteady(env, s, acts[..n]);
      if acts[n].HealthCycle? {
        CycleKeepsSteady(env.params, Exec(env, s, acts[..n]).pool, acts[n].results);
      }
    }
  }

  lemma FirstChoiceIsCurrent(env: Env, s: System, acts: seq<Action>, id: nat)
    requires s.requests == map[] && id in Exec(env, s, acts).requests
    requires Steady(env.params, s.pool) && WholeRun(s.pool.members, acts)
    requires HasChoice(Exec(env, s, acts).requests[id].progress)
    ensures !Exec(env, s, acts).requests[id].progress.c.degraded
  {
    RunKeeps(env, s, acts, id);
    var r := Exec(env, s, acts).requests[id];
    SendFacts(env, BodyOf(r.inbound), r.progress);
    ChoicesAreFromTheRun(env, s, acts, id, r.progress.c);
    var t :| MadeAt(env, s, acts, id, r.progress.c, t);
    PoolStaysSteady(env, s, acts[..t]);
    SteadyIsCurrent(env.params, env.band, r.progress.c.pool, acts[t].move.draw);
  }

  /** Main result: if every health cycle is a whole one, as the health checker's are, then no request ever
      reports a fallback, neither to its client nor in the metrics. */
  lemma NobodySaysDegraded(env: Env, s: System, acts: seq<Action>, id: nat, e: Event)
    requires s.requests == map[] && id in Exec(env, s, acts).requests
    requires Steady(env.params, s.pool) && WholeRun(s.pool.members, acts)
    requires e in Exec(env, s, acts).requests[id].log
    ensures !SaysDegraded(e)
  {
    RunKeeps(env, s, acts, id);
    var r := Exec(env, s, acts).requests[id];
    DegradedEvents(env, BodyOf(r.inbound), r.progress);
    if HasChoice(r.progress) {
      FirstChoiceIsCurrent(env, s, acts, id);
    }
  }

  /** And so the header is wrong exactly about an endpoint reached by a retry when no other eligible one was
      current any more. */
  lemma HeaderMissesRetries(env: Env, s: System, acts: seq<Action>, id: nat, e: Event)
    requires s.requests == map[] && id in Exec(env, s, acts).requests
    requires New(s.pool) && WholeRun(s.pool.members, acts)
    requires e in Exec(env, s, acts).requests[id].log && e.Reply? && e.servedBy != null
    ensures var pr := Exec(env, s, acts).requests[id].progress;
            && HasChoice(pr)
            && var last := LastChoice(pr);
               && e.servedBy == last.endpoint && last.endpoint in last.pool.members && !e.degraded
               && (!Current(env.params, last.pool, last.endpoint) <==>
                     pr.Reanswered? && !SomeCurrent(env.params, last.pool, pr.c.endpoint))
  {
    NewIsSteady(env.params, s.pool);
    DegradedHeader(env, s, acts, id, e);
    NobodySaysDegraded(env, s, acts, id, e);
    FirstChoiceIsCurrent(env, s, acts, id);
    RunKeeps(env, s, acts, id);
  }

  /** No request is ever stuck: a point is final exactly when no move leads on from it. */
  lemma NoRequestIsStuck(env: Env, pool: PoolState, inbound: Inbound, pr: Progress)
    ensures Finished(pr) <==> forall m :: Advance(env, pool, inbound, pr, m) == pr
  {
    var d := Draw(0, 0, true);
    if !Finished(pr) {
      var m := if pr.Arrived? then Select1(d)
               else if pr.Chosen? || pr.Rechosen? then Send
               else if pr.Broken? then Retry(true, d)
               else Return(NoAnswer(false));
      assert Advance(env, pool, inbound, pr, m) != pr;
    }
  }

  /** And no request goes on for ever: a move that leads on is one of at most six. */
  lemma AtMostSixMoves(env: Env, pool: PoolState, inbound: Inbound, pr: Progress, m: Move)
    requires Legit(env, inbound, pr) && Advance(env, pool, inbound, pr, m) != pr
    ensures Steps(Advance(env, pool, inbound, pr, m)) == Steps(pr) + 1 <= 6
  {
    AdvanceIsNext(env, pool, inbound, pr, m);
    StepsOneByOne(Advance(env, pool, inbound, pr, m));
  }

  lemma StepsOneByOne(pr: Progress)
    requires !pr.Arrived?
    ensures Steps(pr) == Steps(Before(pr)) + 1 <= 6
  {
  }
}
