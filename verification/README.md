# rpc-mesh, verified

A Dafny model of rpc-mesh, a load balancer for Solana JSON-RPC endpoints: the endpoint pool, the
power-of-two-choices sampler, the health checker, the request and retry protocol, the peek-then-stream
body path and the naming of endpoints. Each part keeps the program's own branches, constants and error
cases; the properties are proved for every input, every run and every interleaving.

`dafny verify dfyconfig.toml` checks everything.

## How it is organised

| file | module | part of the program |
|---|---|---|
| GoTypes.dfy | GoTypes | integer widths, truncation, `rand.IntN` with the draw passed in |
| Probes.dfy | Probes | one probe result on one endpoint, on values |
| Hysteresis.dfy | Hysteresis | what the health flag means over a probe history |
| Ewma.dfy | Ewma | the smoothed latency against the exact average |
| Sampler.dfy | Sampler | power of two choices, counted over all draws |
| Endpoints.dfy | Endpoints | the endpoint objects and probe results |
| PoolSpec.dfy | PoolSpec | the pool on values: batches and selections |
| PoolRuns.dfy | PoolRuns | whole runs: health, watermark, latencies |
| Degraded.dfy | Degraded | falling back to a lagging endpoint, and why whole cycles never lead there |
| Piecemeal.dfy | Piecemeal | the same for a pool written one result at a time |
| Trickle.dfy | Trickle | a batch against the same results one at a time |
| Pool.dfy | PoolImpl | the pool as mutable objects, proved against PoolSpec |
| HealthCheck.dfy | HealthCheck | the probe cycle as a step system and as a method |
| Config.dfy | Config | endpoint names |
| Peek.dfy | Peek | the one-shot body: peek, write back, stream |
| Proxy.dfy | Proxy | requests interleaved with each other and with health cycles |
| Handler.dfy | Handler | ServeHTTP on the pool's objects, tied to the step system of Proxy |
| Mesh.dfy | Mesh | the whole program: the health checker and the requests interleaved |

Randomness is a parameter: a draw is the two raw indices and the coin, so a probability is a number of
winning draws out of all of them. The latency band (5/4 of the lower latency, in floating point) is a
parameter `g` of the sampler; only the fairness result asks that it be monotone, and `NearTie` is the
band without rounding. Smoothing is computed over the reals and truncated as the program does; rounding
of float64 is not modelled. Mutex-protected methods are single steps. The pool's settings satisfy
`Probes.Validated`, which is what the configuration check at config/config.go:146-154 lets through.

## What the proofs turned up

- README.md:78 of the program says the lowest average is picked. The code samples two candidates
  (router/types.go:194-211); a candidate is certain to be picked only if it is alone, or one of two and
  clearly faster (`Sampler.CertainPick`).
- The comment at router/types.go:223-224 says the band cannot overflow unless both latencies are the
  maximum. The product fits exactly up to four fifths of the range (`Sampler.BandFits`,
  `Sampler.BandCanOverflow`); no latency a real probe can have comes near it (`PoolRuns.MeasuredRun`).
- The comment at router/types.go:378 calls the watermark the highest slot observed. It can fall
  (`PoolRuns.WatermarkCanFall`).
- The fallback to a lagging endpoint at router/types.go:164-168 never happens to a first selection, and so
  the degraded counter and the degraded header never fire (`Mesh.NeverSaysDegraded`, for every interleaving
  of the health checker with requests). The checker is the program's only writer of the pool and applies
  whole cycles only, and after whole cycles on a new pool a selection without an exclusion finds a current
  endpoint or none that is healthy (`Degraded.NeverDegraded`, `HealthCheck.CheckerNeverDegrades`). Results
  recorded one at a time, as only the program's tests do, can bring it about exactly if the pool has two
  endpoints or more, failThresh is at least two and slots can be that far apart
  (`Piecemeal.DegradedReachable`), and then it lasts for at most failThresh - 2 more whole cycles
  (`Piecemeal.DegradedSpellIsShort`, attained by `Piecemeal.DegradedSpellIsTight`).
- A retry can reach a lagging endpoint, and answers without the header, which tells about the first choice
  only (`Proxy.DegradedHeader`, `Proxy.HeaderMissesRetries`, `Handler.LaggingAnswerUnmarked`).
- A probe whose clock reads zero leaves a working endpoint looking unprobed
  (`Ewma.ZeroLatencyLooksUnprobed`; exactly when: `Ewma.SentinelAfterSuccess`, `Ewma.SentinelOverHistory`),
  and the next sample then seeds the average anew: any sample above the recurrence over all the samples takes
  the average above it (`Ewma.NextSampleStaysNear`, exactly when; `Ewma.ZeroThenOvershoots`, a zero reading
  followed by any other).
- A retryable failure for which no second attempt is made counts as two upstream errors
  (`Proxy.Accounting`).
- An error response of exactly 4096 bytes is not recognised (`Peek.ErrorsSeenInWindow`,
  `Peek.MissedAtWindow`).
- Two endpoints can get the same name (`Config.NamesCollide`, `Config.CollisionExample`).

## Model

| member | source | states |
|---|---|---|
| GoTypes.IntN | router/types.go:205-206 | a draw lands below its bound, and every value below the bound is reached |
| Probes.Smooth | router/types.go:320-327 | the first sample is taken as it is; later the result lies between the old average and the sample, so it never leaves the range of a Duration |
| Probes.RecordTook | router/types.go:289-328 | an error is kept and counted, ejects at failThresh and leaves slot and average alone; a success clears it, is counted, readmits at okThresh, always replaces the slot, and its latency is taken as it is or blended and truncated |
| Probes.SlotIsLatest | router/types.go:305-318 | an endpoint's slot is that of its latest success, whether or not it was in rotation, and 0 before the first |
| Probes.ReplayConcat | router/types.go:270-276 | a history can be replayed in parts |
| Hysteresis.CountersMeaning | router/types.go:296-316 | in every reachable state each counter is the length of its trailing run, at most one is non-zero, the last error is set iff the last probe failed and is that error, healthy means fewer failures than the threshold, ejected means fewer successes than the threshold |
| Hysteresis.HealthyMeansCleared | router/types.go:296-316 | an endpoint is healthy iff every window of failThresh consecutive failures is followed by a later window of okThresh consecutive successes |
| Hysteresis.FlapBound | router/types.go:300-316 | ejections times failThresh is at most the failures, readmissions times okThresh at most the successes, and ejections exceed readmissions by at most one |
| Hysteresis.FlapBudget | router/types.go:300-316 | the same bound with what the current run has saved up, and ejections minus readmissions tells the health flag |
| Ewma.ReplayAverages | router/types.go:305-327 | failed probes leave no trace in the average |
| Ewma.Envelope | router/types.go:320-327 | the average stays within the range of the samples seen, whatever they are |
| Ewma.Drift | router/types.go:320-327 | for any samples the truncated average is less than 1/alpha away from the exact recurrence over the samples since it was last seeded, and never above it if no sample is negative |
| Ewma.SeedIsFirst | router/types.go:320-323 | with samples of at least one nanosecond those are all the samples |
| Ewma.NextSampleStaysNear | router/types.go:322-327 | while the average is near the recurrence over all samples, one more sample keeps it near iff the average is not zero, or the sample is at most the recurrence, or alpha is one |
| Ewma.ReseedStaysNear | router/types.go:322-323 | a sample taken as it is stays near iff it is at most the recurrence, or alpha is one |
| Ewma.ZeroThenOvershoots | router/types.go:322-323 | two successful probes, the first of zero latency and the second of any other, leave the average above the recurrence |
| Ewma.ExactIsGeometricSum | router/types.go:326 | the exact recurrence unfolds to the geometric weighted sum of the samples |
| Ewma.WeightsSumToOne | router/types.go:320-326 | the weights, the seed's included, add up to one |
| Ewma.SentinelMeansUnprobed | router/types.go:188-191 | with latencies of at least one nanosecond, a zero average means exactly that no probe succeeded |
| Ewma.SentinelAfterSuccess | router/types.go:322-327 | a success leaves a zero average iff its latency is zero and 1 - alpha of the old average is less than a nanosecond |
| Ewma.SentinelOverHistory | router/types.go:322-327 | a history leaves a zero average iff no probe succeeded or the last success had zero latency and what it found had faded so far |
| Ewma.ZeroLatencyLooksUnprobed | router/types.go:322-323 | a success of zero latency leaves an endpoint that looks unprobed |
| Sampler.FirstIsFaster | router/types.go:215-240 | the first of two is chosen iff it is clearly faster, or neither is and the coin says so |
| Sampler.BandMeaning | router/types.go:19-31 | with the unrounded band the first wins whatever the coin iff five times its latency is below four times the other's, and the coin decides iff neither is that much faster |
| Sampler.NearTieIsMonotone | router/types.go:31 | the band without rounding is monotone |
| Sampler.DrawsAreDistinctPairs | router/types.go:202-209 | the raw draws are in bijection with the ordered pairs of distinct candidates |
| Sampler.DrawCount | router/types.go:205-206 | there are 2N(N-1) draws |
| Sampler.WinLaw | router/types.go:194-240 | of all draws a candidate wins exactly four for every candidate it clearly beats and two for every one it ties with |
| Sampler.ChosenAtAll | router/types.go:194-240 | a candidate can be chosen iff some other candidate is not clearly faster |
| Sampler.FasterWinsMore | router/types.go:194-240 | a lower latency never wins fewer draws, although the tie band is not transitive |
| Sampler.TieBandIsNotTransitive | router/types.go:19-31 | 100, 120 and 150: two ties and a clear gap |
| Sampler.SharesAddUp | router/types.go:194-211 | every draw is won by exactly one candidate |
| Sampler.ColdStartIsUniform | router/types.go:188-191 | with no endpoint measured every candidate has exactly one chance in N |
| Sampler.ClearGapsLaw | router/types.go:182-186 | when no candidate ties with it, a candidate with r clearly faster ones wins 4(N-1-r) draws |
| Sampler.NobodyTakesAll | router/types.go:172-186 | a candidate wins at most two draws in N, and that many iff it clearly beats everyone else |
| Sampler.CertainPick | router/types.go:172-211 | every draw picks the same candidate iff it is alone, or one of two and clearly faster |
| Sampler.BandFits | router/types.go:223-225 | the band's product fits a Duration iff five times the latency is below four times the range |
| Sampler.BandCanOverflow | router/types.go:223-225 | a latency short of the maximum whose product does not fit |
| Sampler.UnprobedNeverBeatsMeasured | router/types.go:188-191 | an unmeasured endpoint loses every pairing with a measured one, whatever the coin |
| Endpoints.ProjectConcat | router/types.go:274-276 | what results say about one endpoint splits where the results are split |
| Endpoints.Endpoint.constructor | router/types.go:99-107 | a new endpoint is healthy and unmeasured |
| PoolSpec.LiveMaxIsMaximum | router/types.go:334-343 | the new watermark is the maximum slot over healthy endpoints without error, zero if there is none |
| PoolSpec.BatchMeaning | router/types.go:270-278 | after a batch every member has replayed its own results, and the watermark is the highest slot of a live member, or what it was if no live member has one |
| PoolSpec.WatermarkMeaning | router/types.go:334-347 | the watermark after a batch is the highest positive slot of a healthy endpoint whose last probe succeeded, or what it was if there is none |
| PoolSpec.LagMeaning | router/types.go:259-264 | slot and lag add up to the watermark, for an endpoint that has a slot no higher than it; otherwise the lag is 0 |
| PoolSpec.CandidatesExactly | router/types.go:148-159 | the two candidate lists hold exactly the eligible current and the eligible lagging endpoints |
| PoolSpec.CandidatesDistinct | router/types.go:148-159 | no endpoint is a candidate twice |
| PoolSpec.SelectMeaning | router/types.go:144-170 | in health flags and slots alone: the answer is healthy and not the excluded one, degraded iff its slot plus the limit is below the watermark and iff that is true of every such endpoint; an error iff there is none |
| PoolSpec.SelectSound | router/types.go:144-170 | in every state and for every draw: the answer is a healthy member other than the excluded one, degraded iff its lag exceeds the limit, and iff no eligible endpoint is current; an error iff nobody is eligible |
| PoolSpec.SelectReaches | router/types.go:144-240 | an endpoint is the answer for some draw iff it is sampled from and either is alone there or has a competitor that does not clearly beat it |
| PoolSpec.SelectLaw | router/types.go:144-240 | of the 2N(N-1) draws over the N endpoints sampled from, a selection routes to each for four per rival it clearly beats and two per rival it ties with |
| PoolSpec.TierMeaning | router/types.go:148-168 | which endpoints are sampled from, in health flags and slots alone |
| PoolSpec.SelectLawMeaning | router/types.go:194-247 | with the 5/4 band, in latencies alone: four draws per rival more than 5/4 as slow, two per rival within 5/4 either way |
| PoolRuns.RunReplays | router/types.go:270-347 | over any run each endpoint replays its own history and nothing else |
| PoolRuns.SelectFailsWhenAllEjected | router/types.go:144-170 | a selection fails iff every endpoint's history calls for its ejection |
| PoolRuns.RunSlots | router/types.go:305-318 | after any run every endpoint has the slot of its latest success |
| PoolRuns.RunHeadIsWatermark | router/types.go:334-347 | between batches a positive maximum over live endpoints is the watermark |
| PoolRuns.WatermarkOverRun | router/types.go:330-347 | the watermark is the latest positive maximum of the run, or its old value if there was none, and nothing else is |
| PoolRuns.WatermarkWasReported | router/types.go:318-347 | a positive watermark is a slot that some successful probe of a member reported |
| PoolRuns.FailedLeaderStepsDown | router/types.go:330-333 | once another endpoint is live with a slot, a failed node no longer holds the watermark |
| PoolRuns.WatermarkCanFall | router/types.go:334-347 | the watermark falls when the leader's probe fails |
| PoolRuns.MeasuredRun | router/types.go:213-247 | with latencies from 1 to cap and 5 cap below 4 times the range: zero average iff no success, no overflow in the band, and an unmeasured endpoint never beats a measured one |
| PoolRuns.RoutedEnvelope | router/types.go:320-327 | the average that is routed on never leaves the range of the samples seen, in any run |
| PoolRuns.AverageDrift | router/types.go:320-327 | the drift bound for the average that is routed on, in any run and for any latencies |
| PoolRuns.MeasuredDrift | router/types.go:320-327 | with latencies of at least one nanosecond: never above the exact recurrence over all samples, and less than 1/alpha below it |
| Degraded.LiveMeansCurrent | router/types.go:161-163 | between batches one live endpoint guarantees an answer that is not degraded |
| Degraded.DegradedOnlyIfAllFailed | router/types.go:164-168 | after batches of any kind a degraded answer means the last probe of every healthy endpoint failed |
| Degraded.CycleKeepsSteady | router/types.go:266-347 | a whole cycle keeps the invariant: without a head, whoever is healthy with a slot failed in every cycle since, and the last leader still counts as current until so many cycles eject everyone who did |
| Degraded.SteadyIsCurrent | router/types.go:144-170 | in a state of the invariant no draw falls back |
| Degraded.NeverDegraded | router/types.go:161-168 | after whole cycles on a new pool no selection is degraded, whatever the probes reported |
| Piecemeal.DegradedSpellIsShort | router/types.go:144-170 | after batches of any kind, degraded routing lasts for at most failThresh - 2 whole cycles, and for none unless nobody was live with a slot |
| Piecemeal.HealthyThroughSpell | router/types.go:296-304 | an endpoint healthy at the end of such a spell failed in every cycle of it and kept its slot |
| Piecemeal.DegradedSpellIsTight | router/types.go:282-287 | in any pool of two or more: single results that leave it degraded, for exactly failThresh - 2 further whole cycles |
| Piecemeal.DegradedReachable | router/types.go:282-304 | batches in which no endpoint occurs twice lead a new pool to a degraded selection iff it has two members or more, failThresh is at least two and slots can be that far apart |
| Piecemeal.DegradedReachableByAny | router/types.go:270-304 | if an endpoint may occur twice in a batch, one member is enough |
| Trickle.SameEndpointStates | router/types.go:266-287 | a batch and the same results one at a time leave the same endpoint states |
| Trickle.BatchOrderIrrelevant | router/types.go:270-278 | with distinct endpoints every order of the results gives the same pool |
| Trickle.WatermarkAgrees | router/types.go:266-287 | the watermarks agree iff some endpoint ends live with a slot, or of the endpoints that were live with a slot none is probed or the one probed last held the watermark |
| Trickle.WatermarkCanDiffer | router/types.go:266-287 | two batches on a new pool after the second of which they differ |
| PoolImpl.Pool.constructor | router/types.go:110-116 | a new pool has no history and a zero watermark |
| PoolImpl.Pool.NewPool | router/types.go:92-117 | one new healthy endpoint per configured one, in order; an error iff none is configured |
| PoolImpl.Pool.RecordProbeLocked | router/types.go:289-328 | the endpoint's fields become what Record says, and take in the result's slot, latency and error as they should; a nil endpoint is ignored |
| PoolImpl.Pool.RecomputeMaxSlotLocked | router/types.go:334-347 | only the watermark changes, to the maximum over live endpoints if that is positive |
| PoolImpl.Pool.RecordAllLocked | router/types.go:274-276 | every endpoint named, of this pool or not, replays its own results in order |
| PoolImpl.Pool.ApplyProbes | router/types.go:270-278 | the pool becomes what ApplyBatch says and stays a reachable one |
| PoolImpl.Pool.RecordProbe | router/types.go:282-287 | a batch of one |
| PoolImpl.Pool.Meaning | router/types.go:289-347 | the objects' fields are where their histories lead, the health flag says whether the history is cleared, the slot is that of the latest success, and a positive maximum over live endpoints is the watermark |
| PoolImpl.Pool.Select | router/types.go:131-133 | fails iff the histories of all endpoints call for their ejection, and after whole cycles never falls back |
| PoolImpl.Pool.SelectExcluding | router/types.go:144-170 | the answer is that of Select on the pool's state, and in the objects' own fields: healthy, not excluded, degraded iff its slot plus the limit is below the watermark and iff that is true of every such endpoint |
| PoolImpl.Pool.SplitCandidates | router/types.go:148-159 | the two lists are the current and the lagging candidates, in order |
| PoolImpl.Pool.PickBest | router/types.go:194-211 | the candidate is the one Pick names |
| PoolImpl.Pool.Faster | router/types.go:215-240 | the endpoint is the one FirstIsFaster names; between measured ones with a 5/4 band, the one faster by more than that, and the coin's otherwise |
| PoolImpl.Pool.Snapshot | router/types.go:354-376 | one value per endpoint, in order, with its own fields, what its slot lacks to the watermark, its latency in milliseconds and its last error |
| HealthCheck.OnlyWholeCycles | router/health_check.go:116-163 | after any sequence of events the pool is the result of whole cycles, each with one result per member, none of which ended after cancellation |
| HealthCheck.CheckerNeverDegrades | router/health_check.go:116-163 | a checker that starts with a new pool never leaves it in a state where a selection is degraded |
| HealthCheck.InvNext | router/health_check.go:127-162 | every event keeps that: a worker writes only its own place, the check lets only complete and uncancelled cycles pass |
| HealthCheck.CompleteIsFull | router/health_check.go:122-149 | a complete cycle probes every member exactly once |
| HealthCheck.ScheduleIndependence | router/health_check.go:122-154 | the order in which the workers finish changes nothing |
| HealthCheck.Collected | router/health_check.go:143-148 | each place holds what its own worker reported |
| HealthCheck.FinishRecords | router/health_check.go:143-148 | a worker fills its own place with its endpoint and the slot, latency and error that its probe returned |
| HealthCheck.CycleTakesReadings | router/health_check.go:143-162 | every member takes in its own reading, error and all |
| HealthCheck.CycleCompletes | router/health_check.go:116-163 | a cycle that begins, gathers its readings in any order and is not cancelled is applied, and every member has taken in its own reading |
| HealthCheck.CancelledNeverApplied | router/health_check.go:156-160 | once cancelled, a cycle that has not passed its check never reaches the pool, nor does any later one |
| HealthCheck.OneBatchAfterCancel | router/health_check.go:156-162 | a cycle that passed its check before the cancellation may still be applied, and is the last |
| HealthCheck.ProbeAll | router/health_check.go:122-158 | for every order of the workers each place holds its own endpoint with the slot, latency and error read from it |
| HealthCheck.RunCycle | router/health_check.go:116-163 | the pool changes by the whole batch, every member taking in its own reading, or not at all if the context is cancelled by the end of the probes, and stays one that only whole cycles wrote |
| Config.DecimalInjective | config/config.go:110 | different numbers print differently |
| Config.DecimalReads | config/config.go:110 | a number is printed in decimal digits without leading zeros and reads back as itself |
| Config.ParseEndpoints | config/config.go:78-120 | the first bad part decides the error, blanks are skipped, nothing usable is an error; otherwise the usable parts in order, each named by its host and its occurrence |
| Config.FaultIsFirst | config/config.go:84-103 | the error is that of the first part at fault, and there is none iff no part is |
| Config.EntryOfPart | config/config.go:104-117 | a usable part's entry stands after those of the usable parts before it, has its URL and weight 1, and is named by its host, from the n-th listing of the host on (n >= 2) with n |
| Config.NamesStay | config/config.go:107-111 | a further entry renames nobody and gets the next number of its host |
| Config.SplitAtLastDash | config/config.go:110 | a numbered name determines its host and its number |
| Config.NamesCollide | config/config.go:104-113 | two names are equal iff some listed host is literally h-n for a host h listed at least n >= 2 times |
| Config.CollisionExample | config/config.go:104-113 | three entries of which two get the same name |
| Peek.Reader.Read | router/proxy.go:292-294 | a read takes bytes from the front, at most as many as asked for, and reports the end of the stream as what it is |
| Peek.ReadFull | router/proxy.go:185-187 | the buffer is filled from the front of the body, however short the reads are, and the rest is left; an error is reported iff the buffer is not full |
| Peek.PeekRPCError | router/proxy.go:184-200 | what is consumed and what is left make up the body; a code is decoded only from what ends inside the window, and is the body's own iff the body does or carries none |
| Peek.Copy | router/proxy.go:309-319 | the rest is streamed up to where the client stops taking bytes, without error iff it takes all and the stream does not break off |
| Peek.Relay | router/proxy.go:292-319 | the client receives what was delivered, cut only where it stopped, and the code is that of the whole; no error iff it took all and the stream did not break off |
| Peek.ErrorsSeenInWindow | router/proxy.go:189-199 | for a decoder that finds nothing in no bytes, the code of a body is seen iff the body is shorter than 4096 bytes or has none |
| Peek.MissedAtWindow | router/proxy.go:189-193 | the error of a body of exactly 4096 bytes is missed, although the peek reads all of it |
| Proxy.LeadingSpaceIgnored | router/proxy.go:149-150 | white space before the body does not matter |
| Proxy.WhatMayBeRetried | router/proxy.go:37-41 | after any white space, a body may be sent again iff it is no array and names neither write method |
| Proxy.RefusalMove | router/proxy.go:210-245 | which status each refused request gets, with nothing else logged |
| Proxy.SelectMove | router/proxy.go:249-260 | 503 and one error if nobody is healthy; otherwise an endpoint chosen as SelectMeaning says, observed iff degraded |
| Proxy.SendMove | router/proxy.go:262-275 | the request's body goes to the chosen endpoint |
| Proxy.AnswerMove | router/proxy.go:262-321 | from the upstream's own answer: passed on with its status, or a failure observed and the retry due, or 504 for a deadline and 502 for anything else, with everything logged for that endpoint |
| Proxy.RetryMove | router/proxy.go:264-288 | given up with the failure observed again if the client has gone or nobody else is healthy; otherwise another endpoint chosen as it should be and observed as the retry's target |
| Proxy.SecondAnswerMove | router/proxy.go:275-321 | the second answer ends the request, logged for the second endpoint, with the header of the first choice |
| Proxy.ActionEffects | router/proxy.go:202-322 | requests change neither each other nor the pool, and a health cycle changes the pool alone |
| Proxy.StepKeeps | router/proxy.go:247-321 | every move of a request, in any pool, keeps its log in closed form and its choices sound |
| Proxy.TableIsRight | router/proxy.go:247-321 | the numbers of sends, failures, responses, requests, retries and errors at every point of a request |
| Proxy.AtMostOnce | router/proxy.go:31-41 | in every reachable state a write or batch is forwarded at most once, anything else at most twice and the second time only after a failure, with the same body, to different endpoints each healthy when chosen |
| Proxy.OneResponse | router/proxy.go:202-322 | a request gets exactly one response, when it is finished |
| Proxy.FinishedForGood | router/proxy.go:280-321 | a finished request never changes again |
| Proxy.Accounting | router/proxy.go:249-321 | one request observed, for the last endpoint tried; retries equal second forwards; upstream errors equal failed forwards, plus one iff a retryable failure had no second attempt |
| Proxy.RepliesAreTruthful | router/proxy.go:280-307 | a response carries the status of the last endpoint tried, or 504 iff that attempt ran into the deadline and 502 otherwise |
| Proxy.AnswerPassesThrough | router/proxy.go:367-375 | an HTTP answer reaches the client with its status iff that is neither 5xx nor 429 |
| Proxy.ChoicesAreFromTheRun | router/proxy.go:249-271 | every choice was made by a selection of the request itself, in the pool as it was at that moment, and is logged from then on |
| Proxy.DegradedHeader | router/proxy.go:256-305 | the header is right about the endpoint that answered iff there was no retry, or some eligible endpoint was current at the first selection iff some other one was at the second |
| Proxy.NobodySaysDegraded | router/proxy.go:256-305 | if every health cycle is whole, no request observes a degradation or sends the header |
| Proxy.HeaderMissesRetries | router/proxy.go:264-305 | in such runs the endpoint that answers lags, unmarked, iff it was reached by a retry that found no current one |
| Proxy.NoRequestIsStuck | router/proxy.go:202-322 | a point is final iff no move leads on from it |
| Proxy.AtMostSixMoves | router/proxy.go:202-322 | a request ends after at most six moves |
| Handler.HandleIsARun | router/proxy.go:247-321 | one request handled alone, with health cycles in between, is a run of the system, which takes it to its end with the log in closed form |
| Handler.LaggingAnswerUnmarked | router/proxy.go:271-305 | one whole cycle on a new pool, and then a request that a lagging endpoint answers without the header |
| Handler.TryOnce | router/proxy.go:249-262 | select in the pool's state, observe degradation, send |
| Handler.Resend | router/proxy.go:271-276 | the same body to the alternative, and what comes back is passed on |
| Handler.TryElsewhere | router/proxy.go:264-288 | unless the client has gone or nobody else is eligible, send to an endpoint other than the failed one |
| Handler.Finish | router/proxy.go:280-321 | an answer that is not retried ends the request, with its own log |
| Handler.Proceed | router/proxy.go:262-321 | what follows the first answer |
| Handler.Interfere | router/types.go:270-278 | health cycles in between take the pool along its run |
| Handler.ClientIsTold | router/proxy.go:249-307 | from the two pools and the two upstream answers: 503, a usable answer's own status, or 504 for a deadline and 502 for any other failure |
| Handler.ServeHTTP | router/proxy.go:202-322 | the handler's statements on the pool itself emit the log of the request in a run of the system, answer as ClientIsTold says, and say degraded nowhere if all cycles are whole |
| Mesh.RunIsWhole | router/health_check.go:116-163 | every interleaving of checker events with request moves is, to the requests, a run of the protocol with the same client moves, whose health cycles are whole |
| Mesh.CheckerRuns | router/health_check.go:91-163 | the checker runs as it would alone, whatever the requests do |
| Mesh.NeverSaysDegraded | router/proxy.go:256-305 | in no run of the program does a request observe a degradation or send the header |
| Mesh.PromisesKept | router/proxy.go:202-322 | in every run of the program the limits on forwarding, the books and the single response hold |

## Left out

- PoolImpl.Pool: the lock itself, `lastChecked` and the copying `Endpoints` and `MaxSlot` accessors are not modelled; each locked method is one step.
- PoolImpl.Pool.Snapshot: leaves out the time of the last check.
- PoolImpl.Pool.RecordProbeLocked: the counters are unbounded, so a wrap-around after 2^63 equal probes is not modelled, nor is float64 rounding of the average.
- Ewma.Drift: measures from where the average was last seeded; against the recurrence over all the samples the bound can fail once the average has returned to zero, exactly as `Ewma.NextSampleStaysNear` says.
- Peek.PeekRPCError: drops the error of the reader, as the program does, so after a read error the part delivered is what is decoded.
- Peek.Reader: after its end a reader reports the same ending again; readers that block for ever are not modelled.
- Config.ParseEndpoints: trimming, splitting at commas and URL parsing are taken as done; a part arrives already classified.
- Handler.ServeHTTP: the health cycles of `during` fall between the two selections, the only places where the handler reads the pool; the step system has them anywhere.
- Handler.TryOnce: an attempt whose HTTP request cannot even be built counts as sent and unanswered.
- Settings outside the configuration check (thresholds below one, alpha outside (0, 1]) are not modelled; the pool is built from a checked configuration.
- The rest of Config.validate and the environment variables: independent comparisons.
- JSON decoding: the method of a request and the error code of a response are unknown functions of the bytes.
- `classifyError`, the text of error bodies, logging, CORS and header copying: one-branch filters over strings.
- The HTTP transport, probes over the network, tickers and deadlines: their outcomes are parameters.
- Prometheus exporters, server wiring and cmd/bench: thin wrappers and a measuring tool.
