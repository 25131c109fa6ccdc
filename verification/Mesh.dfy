// The whole program: the health checker and any number of requests, interleaved step by step on one pool.
// Every run of it is a run of Proxy whose health cycles are whole, so what holds of those holds here.
module Mesh {
  import opened PoolRuns
  import opened Degraded
  import opened Proxy
  import Health = HealthCheck

  /** The checker owns the pool that the requests read. */
  datatype World = World(checker: Health.Checker, requests: map<nat, Request>)

  datatype Step =
    | Check(event: Health.Event)
    | Incoming(id: nat, inbound: Inbound)
    | Progressing(id: nat, move: Move)

  /** What the requests see of it. */
  function AsSystem(w: World): System {
    System(w.checker.pool, w.requests)
  }

  function Turn(env: Env, w: World, step: Step): World {
    match step
    case Check(event) => w.(checker := Health.Next(env.params, w.checker, event))
    case Incoming(id, inbound) => w.(requests := Next(env, AsSystem(w), Arrive(id, inbound)).requests)
    case Progressing(id, m) => w.(requests := Next(env, AsSystem(w), Action.Move(id, m)).requests)
  }

  function Turns(env: Env, w: World, steps: seq<Step>): World {
    if steps == [] then w else Turn(env, Turns(env, w, steps[..|steps| - 1]), steps[|steps| - 1])
  }

  ghost predicate Starts(w: World) {
    New(w.checker.pool) && w.checker.phase.Idle? && w.checker.applied == [] && w.requests == map[]
  }

  /** What a step is to the requests: of the checker they notice only a batch that is applied. */
  function Noticed(w: World, step: Step): seq<Action> {
    match step
    case Check(event) =>
      if event.Apply? && w.checker.phase.Checked? && Health.AllDone(w.checker.phase.slots)
      then [HealthCycle(Health.Results(w.checker.phase.slots))]
      else []
    case Incoming(id, inbound) => [Arrive(id, inbound)]
    case Progressing(id, m) => [Action.Move(id, m)]
  }

  lemma OneNoticed(env: Env, w: World, step: Step)
    ensures Exec(env, AsSystem(w), Noticed(w, step)) == AsSystem(Turn(env, w, step))
  {
    var acts := Noticed(w, step);
    if acts != [] {
      assert acts[..0] == [];
    }
  }

  /** What holds between two steps: the checker's own invariant. */
  ghost predicate Sound(env: Env, start: World, w: World) {
    Health.Inv(env.params, start.checker.pool, w.checker)
  }

  lemma NoticedWhole(env: Env, start: World, w: World, step: Step)
    requires Sound(env, start, w)
    ensures Sound(env, start, Turn(env, w, step))
    ensures WholeRun(start.checker.pool.members, Noticed(w, step))
  {
    if step.Check? {
      Health.InvNext(env.params, start.checker.pool, w.checker, step.event);
      if Noticed(w, step) != [] {
        Health.CompleteIsFull(w.checker.pool, w.checker.phase.slots);
      }
    }
  }

  /** What the clients do, as steps and as actions. */
  function ClientSteps(steps: seq<Step>): seq<Action> {
    if steps == [] then []
    else
      ClientSteps(steps[..|steps| - 1]) +
      match steps[|steps| - 1]
      case Check(_) => []
      case Incoming(id, inbound) => [Arrive(id, inbound)]
      case Progressing(id, m) => [Action.Move(id, m)]
  }

  function ClientActs(acts: seq<Action>): seq<Action> {
    if acts == [] then []
    else ClientActs(acts[..|acts| - 1]) + if acts[|acts| - 1].HealthCycle? then [] else [acts[|acts| - 1]]
  }

  lemma ClientActsSnoc(acts: seq<Action>, a: Action)
    ensures ClientActs(acts + [a]) == ClientActs(acts) + if a.HealthCycle? then [] else [a]
  {
    assert (acts + [a])[..|acts|] == acts;
  }

  lemma ClientNoticed(w: World, acts: seq<Action>, steps: seq<Step>)
    requires steps != [] && ClientActs(acts) == ClientSteps(steps[..|steps| - 1])
    ensures ClientActs(acts + Noticed(w, steps[|steps| - 1])) == ClientSteps(steps)
  {
    var more := Noticed(w, steps[|steps| - 1]);
    if more == [] {
      assert acts + more == acts;
    } else {
      ClientActsSnoc(acts, more[0]);
      assert more == [more[0]];
    }
  }

  function CheckerEvents(steps: seq<Step>): seq<Health.Event> {
    if steps == [] then []
    else
      CheckerEvents(steps[..|steps| - 1]) +
      if steps[|steps| - 1].Check? then [steps[|steps| - 1].event] else []
  }

  /** The checker runs as it would alone, whatever the requests do. */
  lemma {:induction false} CheckerRuns(env: Env, w: World, steps: seq<Step>)
    ensures Turns(env, w, steps).checker == Health.Exec(env.params, w.checker, CheckerEvents(steps))
  {
    if steps != [] {
      var fewer := steps[..|steps| - 1];
      CheckerRuns(env, w, fewer);
      var step, evs := steps[|steps| - 1], CheckerEvents(fewer);
      if step.Check? {
        assert (evs + [step.event])[..|evs|] == evs;
      } else {
        assert evs + [] == evs;
      }
    }
  }

  /** These actions take the requests where the steps take the whole. */
  ghost predicate Mirrors(env: Env, start: World, acts: seq<Action>, w: World) {
    && WholeRun(start.checker.pool.members, acts)
    && Exec(env, AsSystem(start), acts) == AsSystem(w)
  }

  lemma MirrorsNext(env: Env, start: World, acts: seq<Action>, w: World, step: Step)
    requires Mirrors(env, start, acts, w) && Sound(env, start, w)
    ensures Mirrors(env, start, acts + Noticed(w, step), Turn(env, w, step))
  {
    OneNoticed(env, w, step);
    NoticedWhole(env, start, w, step);
    ExecConcat(env, AsSystem(start), acts, Noticed(w, step));
  }

  /** Main result: every run of the program is, to its requests, a run of the request protocol with the same
      moves of the clients, in which every health cycle is whole. */
  lemma {:induction false} RunIsWhole(env: Env, w: World, steps: seq<Step>) returns (acts: seq<Action>)
    requires Starts(w)
    ensures Mirrors(env, w, acts, Turns(env, w, steps)) && Sound(env, w, Turns(env, w, steps))
    ensures ClientActs(acts) == ClientSteps(steps)
  {
    if steps == [] {
      Health.InvExec(env.params, w.checker, []);
      acts := [];
    } else {
      var n := |steps| - 1;
      var fewer := RunIsWhole(env, w, steps[..n]);
      var before := Turns(env, w, steps[..n]);
      MirrorsNext(env, w, fewer, before, steps[n]);
      NoticedWhole(env, w, before, steps[n]);
      ClientNoticed(before, fewer, steps);
      acts := fewer + Noticed(before, steps[n]);
    }
  }

  /** So in no run of the program does a request report a fallback, to its client or in the metrics. */
  lemma NeverSaysDegraded(env: Env, w: World, steps: seq<Step>, id: nat, e: Event)
    requires Starts(w) && id in Turns(env, w, steps).requests
    requires e in Turns(env, w, steps).requests[id].log
    ensures !SaysDegraded(e)
  {
    var acts := RunIsWhole(env, w, steps);
    NewIsSteady(env.params, w.checker.pool);
    NobodySaysDegraded(env, AsSystem(w), acts, id, e);
  }

  /** And every request keeps the promises of the protocol. */
  lemma PromisesKept(env: Env, w: World, steps: seq<Step>, id: nat)
    requires Starts(w) && id in Turns(env, w, steps).requests
    ensures var r := Turns(env, w, steps).requests[id];
            && ForwardedSafely(env, r) && TargetsWereHealthy(r.log) && AccountedFor(env, r)
            && Shows(r.log, Replies, if Finished(r.progress) then 1 else 0)
  {
    var acts := RunIsWhole(env, w, steps);
    AtMostOnce(env, AsSystem(w), acts, id);
    Accounting(env, AsSystem(w), acts, id);
    OneResponse(env, AsSystem(w), acts, id);
  }
}
