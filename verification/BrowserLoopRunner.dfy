/** The agent loop as it runs: objects that send, ask, notify and count, step by step. */
module BrowserLoopRunner {
  import opened Wrappers
  import opened Json
  import opened BrowserTypes
  import opened BrowserClient
  import opened BrowserLoopSpec
  import opened BrowserLoopTrail
  import opened BrowserLoopTheorems
  import opened BrowserLoopProgress

  class LoopPlanner {
    const answer: Planner
    var asked: seq<PlannerCall>

    constructor (answer: Planner)
      ensures this.answer == answer && asked == []
    {
      this.answer := answer;
      asked := [];
    }

    method DecideNext(request: BrowserLoopRequest, observation: BrowserObservation,
                      iterations: seq<BrowserLoopIteration>)
      returns (r: BrowserResult<BrowserLoopDecision>)
      modifies this`asked
      ensures asked == old(asked) + [PlannerCall(request, observation, iterations)]
      ensures r == answer(|old(asked)|, PlannerCall(request, observation, iterations))
    {
      var call := PlannerCall(request, observation, iterations);
      r := answer(|asked|, call);
      asked := asked + [call];
    }
  }

  class IterationObserver {
    const answer: Observer
    var seen: seq<BrowserLoopIteration>

    constructor (answer: Observer)
      ensures this.answer == answer && seen == []
    {
      this.answer := answer;
      seen := [];
    }

    method OnIteration(record: BrowserLoopIteration) returns (r: BrowserResult<()>)
      modifies this`seen
      ensures seen == old(seen) + [record]
      ensures r == answer(|old(seen)|, record)
    {
      r := answer(|seen|, record);
      seen := seen + [record];
    }
  }

  /** How an iteration ends: with a result for the caller, or with new loop variables. */
  datatype Step =
    | Return(result: BrowserResult<BrowserLoopOutput>)
    | Continue(observation: BrowserObservation, iterations: seq<BrowserLoopIteration>, noProgress: nat)

  function StepOf(o: Outcome): Step {
    if o.Running? then Continue(o.state.View(), o.state.records, o.state.stalled) else Return(Report(o))
  }

  /** `turn` is the turn function of this world and request. */
  ghost predicate Drives(turn: TurnFunction, world: World, request: BrowserLoopRequest) {
    forall m: Machine, i: nat :: DrivesAt(turn, world, request, m, i)
  }

  ghost predicate DrivesAt(turn: TurnFunction, world: World, request: BrowserLoopRequest, m: Machine, i: nat) {
    turn(m, i) == Turn(world, request, m, i) && !turn(m, i).Unstarted?
  }

  class BrowserLoopRunner {
    const client: BrowserAutomationClient
    const planner: LoopPlanner
    const hash: Hasher

    constructor (client: BrowserAutomationClient, planner: LoopPlanner, hash: Hasher)
      ensures this.client == client && this.planner == planner && this.hash == hash
    {
      this.client := client;
      this.planner := planner;
      this.hash := hash;
    }

    function WorldWith(observer: IterationObserver): World {
      SourceWorld(client.transport.answer, planner.answer, observer.answer, hash)
    }

    function Now(observer: IterationObserver): Origin
      reads client, client.transport, planner, observer
    {
      Origin(client.CurrentWire(), planner.asked, observer.seen)
    }

    method TakeSnapshot(targetId: string, ghost observer: IterationObserver)
      returns (r: BrowserResult<BrowserObservation>)
      modifies client`nextId, client.transport`sent
      ensures (client.CurrentWire(), r)
              == BrowserLoopSpec.TakeSnapshot(WorldWith(observer), old(client.CurrentWire()), targetId)
    {
      var value := client.Call(Snapshot, SnapshotParams(targetId));
      match value
      case Err(error) => return Err(error);
      case Ok(value) => return ObservationFromValue(hash, value, targetId);
    }

    /** Show a record to the observer; go on with it in the list unless the observer objects. */
    method Record(onIteration: IterationObserver, record: BrowserLoopIteration, next: BrowserObservation,
                  iterations: seq<BrowserLoopIteration>, noProgress: nat, ghost m: Machine) returns (step: Step)
      requires Now(onIteration) == Origin(m.wire, m.asked, m.seen)
      requires m.records == iterations && m.stalled == noProgress
      modifies onIteration`seen
      ensures var o := Commit(WorldWith(onIteration), m, record, next);
              step == StepOf(o) && Now(onIteration) == Origin(o.state.wire, o.state.asked, o.state.seen)
    {
      var verdict := onIteration.OnIteration(record);
      match verdict
      case Err(error) => return Return(Err(error));
      case Ok(_) => return Continue(next, iterations + [record], noProgress);
    }

    /** Count the unchanged pages, record the step, and stop the run when the count reaches its limit. */
    method RecordProgress(onIteration: IterationObserver, observation: BrowserObservation, next: BrowserObservation,
                          iterations: seq<BrowserLoopIteration>, noProgressIterations: nat, iteration: nat,
                          action: Json, expected: Option<string>, recovered: bool, ghost m: Machine)
      returns (step: Step)
      requires Now(onIteration) == Origin(m.wire, m.asked, m.seen)
      requires m.View() == observation && m.records == iterations && m.stalled == noProgressIterations
      modifies onIteration`seen
      ensures var status := if recovered then ActionErrorRecovered
                            else if Progressed(observation, next) then Observed
                            else NoProgress;
              var o := StopIfStalled(Counted(WorldWith(onIteration), m, iteration, action, expected, next, status),
                                     if recovered then RepeatedErrors else RepeatedNoProgress);
              step == StepOf(o) && Now(onIteration) == Origin(o.state.wire, o.state.asked, o.state.seen)
    {
      var noProgress, status := noProgressIterations, ActionErrorRecovered;
      if next.url != observation.url || next.snapshotHash != observation.snapshotHash {
        noProgress := 0;
        status := if recovered then ActionErrorRecovered else Observed;
      } else {
        noProgress := noProgress + 1;
        status := if recovered then ActionErrorRecovered else NoProgress;
      }
      var record := BrowserLoopIteration(iteration, observation.url, observation.snapshotHash, action, expected,
                                         next.url, next.snapshotHash, status);
      step := Record(onIteration, record, next, iterations, noProgress, CountStall(m, next));
      if step.Continue? && noProgress >= MAX_NO_PROGRESS_ITERATIONS {
        var blocked := BlockedOutput(if recovered then RepeatedErrors else RepeatedNoProgress);
        return Return(Ok(BrowserLoopOutput(false, blocked, step.observation, step.iterations)));
      }
    }

    /** The part of an iteration after the sidecar has performed an action. */
    method ObserveAction(request: BrowserLoopRequest, onIteration: IterationObserver, observation: BrowserObservation,
                         iterations: seq<BrowserLoopIteration>, noProgressIterations: nat, iteration: nat, action: Json,
                         expected: Option<string>, result: Json, ghost m: Machine) returns (step: Step)
      requires Now(onIteration) == Origin(m.wire, m.asked, m.seen)
      requires m.View() == observation && m.records == iterations && m.stalled == noProgressIterations
      modifies client`nextId, client.transport`sent, onIteration`seen
      ensures var o := AfterActionSuccess(WorldWith(onIteration), request.targetId, m, iteration, action, expected,
                                          result);
              step == StepOf(o) && Now(onIteration) == Aftermath(old(Now(onIteration)), o)
    {
      var view: BrowserResult<BrowserObservation>;
      if result.GetString("snapshot").Some? {
        view := ObservationFromValue(hash, result, request.targetId);
      } else {
        view := TakeSnapshot(request.targetId, onIteration);
      }
      match view
      case Err(error) => return Return(Err(error));
      case Ok(next) =>
        step := RecordProgress(onIteration, observation, next, iterations, noProgressIterations, iteration,
                               action, expected, false, m.(wire := client.CurrentWire()));
    }

    method RecoverFromActionError(request: BrowserLoopRequest, onIteration: IterationObserver,
                                  observation: BrowserObservation, iterations: seq<BrowserLoopIteration>,
                                  noProgressIterations: nat, iteration: nat, action: Json, expected: Option<string>,
                                  error: BrowserSidecarError, ghost m: Machine)
      returns (step: Step)
      requires Now(onIteration) == Origin(m.wire, m.asked, m.seen)
      requires m.View() == observation && m.records == iterations && m.stalled == noProgressIterations
      modifies client`nextId, client.transport`sent, onIteration`seen
      ensures var o := AfterActionError(WorldWith(onIteration), request.targetId, m, iteration, action, expected,
                                        error);
              step == StepOf(o) && Now(onIteration) == Aftermath(old(Now(onIteration)), o)
    {
      var view := TakeSnapshot(request.targetId, onIteration);
      match view
      case Err(error) => return Return(Err(error));
      case Ok(next) =>
        step := RecordProgress(onIteration, observation, next, iterations, noProgressIterations, iteration,
                               ActionErrorNote(error, action), expected, true, m.(wire := client.CurrentWire()));
    }

    method RecoverFromStaleRef(request: BrowserLoopRequest, onIteration: IterationObserver,
                               observation: BrowserObservation, iterations: seq<BrowserLoopIteration>,
                               noProgressIterations: nat, iteration: nat, action: Json, expected: Option<string>,
                               status: IterationStatus, ghost m: Machine)
      returns (step: Step)
      requires Now(onIteration) == Origin(m.wire, m.asked, m.seen)
      requires m.View() == observation && m.records == iterations && m.stalled == noProgressIterations
      modifies client`nextId, client.transport`sent, onIteration`seen
      ensures var o := Resnapshot(WorldWith(onIteration), request.targetId, m, iteration, action, expected, status);
              step == StepOf(o) && Now(onIteration) == Aftermath(old(Now(onIteration)), o)
    {
      var view := TakeSnapshot(request.targetId, onIteration);
      if view.Err? {
        return Return(Err(view.error));
      }
      var next := view.value;
      var record := BrowserLoopIteration(iteration, observation.url, observation.snapshotHash, action, expected,
                                         next.url, next.snapshotHash, status);
      step := Record(onIteration, record, next, iterations, noProgressIterations, m.(wire := client.CurrentWire()));
    }

    method Perform(request: BrowserLoopRequest, onIteration: IterationObserver, observation: BrowserObservation,
                   iterations: seq<BrowserLoopIteration>, noProgressIterations: nat, iteration: nat, action: Json,
                   expected: Option<string>, ghost m: Machine) returns (step: Step)
      requires Now(onIteration) == Origin(m.wire, m.asked, m.seen)
      requires m.View() == observation && m.records == iterations && m.stalled == noProgressIterations
      modifies client`nextId, client.transport`sent, onIteration`seen
      ensures var o := ActTurn(WorldWith(onIteration), request.targetId, m, iteration, action, expected);
              step == StepOf(o) && Now(onIteration) == Aftermath(old(Now(onIteration)), o)
    {
      var response := client.CallResponse(Act, action);
      ghost var m' := m.(wire := client.CurrentWire());
      match response
      case Err(error) => return Return(Err(error));
      case Ok(Success(_, true, result)) =>
        step := ObserveAction(request, onIteration, observation, iterations, noProgressIterations, iteration,
                              action, expected, result, m');
      case Ok(Success(_, false, _)) => return Return(Err(InvalidResponse("browser act response has ok=false")));
      case Ok(Error(_, _, error)) =>
        if StaleRefError(error) {
          step := RecoverFromStaleRef(request, onIteration, observation, iterations, noProgressIterations, iteration,
                                      action, expected, StaleRefRecovered, m');
        } else if RecoverableSidecarActionError(error) {
          step := RecoverFromActionError(request, onIteration, observation, iterations, noProgressIterations, iteration,
                                         action, expected, error, m');
        } else {
          return Return(Err(SidecarFailure(error)));
        }
    }

    /** One pass through the body of the loop. */
    method Iterate(request: BrowserLoopRequest, onIteration: IterationObserver, observation: BrowserObservation,
                   iterations: seq<BrowserLoopIteration>, noProgressIterations: nat, iteration: nat,
                   ghost turn: TurnFunction, ghost m: Machine)
      returns (step: Step)
      requires Drives(turn, WorldWith(onIteration), request)
      requires Now(onIteration) == Origin(m.wire, m.asked, m.seen)
      requires m.View() == observation && m.records == iterations && m.stalled == noProgressIterations
      modifies client`nextId, client.transport`sent, planner`asked, onIteration`seen
      ensures var o := turn(m, iteration);
              && !o.Unstarted? && step == StepOf(o)
              && Now(onIteration) == Origin(o.state.wire, o.state.asked, o.state.seen)
    {
      assert DrivesAt(turn, WorldWith(onIteration), request, m, iteration);
      var decision := planner.DecideNext(request, observation, iterations);
      ghost var m' := m.(asked := planner.asked);
      match decision
      case Err(error) =>
        if RecoverablePlannerValidationError(error) {
          step := RecoverFromStaleRef(request, onIteration, observation, iterations, noProgressIterations, iteration,
                                      PlannerErrorNote(error), Some(RetryHint(error)), StaleRefRejected, m');
        } else {
          return Return(Err(error));
        }
      case Ok(DecideComplete(output)) => return Return(Ok(BrowserLoopOutput(true, output, observation, iterations)));
      case Ok(DecideBlocked(reason)) =>
        return Return(Ok(BrowserLoopOutput(false, BlockedOutput(PlannerBlocked(reason)), observation, iterations)));
      case Ok(DecideAct(action, expected)) =>
        var normalized := NormalizedAction(action, request.targetId);
        match normalized
        case Err(error) => return Return(Err(error));
        case Ok(action) =>
          step := Perform(request, onIteration, observation, iterations, noProgressIterations, iteration, action,
                          expected, m');
    }

    /** The loop itself: at most the allowed number of iterations, each starting from the last observation. */
    method RunTurns(request: BrowserLoopRequest, onIteration: IterationObserver, first: BrowserObservation,
                    ghost turn: TurnFunction, ghost m0: Machine)
      returns (r: BrowserResult<BrowserLoopOutput>)
      requires Drives(turn, WorldWith(onIteration), request)
      requires Now(onIteration) == Origin(m0.wire, m0.asked, m0.seen)
      requires m0.View() == first && m0.records == [] && m0.stalled == 0
      modifies client`nextId, client.transport`sent, planner`asked, onIteration`seen
      ensures var o := RunFrom(turn, request.maxIterations, m0, 1);
              r == Report(o) && Now(onIteration) == Aftermath(old(Now(onIteration)), o)
    {
      var observation := first;
      var iterations: seq<BrowserLoopIteration> := [];
      var noProgressIterations := 0;
      ghost var limit, m := request.maxIterations as nat, m0;
      ghost var expected := RunFrom(turn, limit, m0, 1);
      for iteration: nat := 1 to request.maxIterations + 1
        invariant expected == RunFrom(turn, limit, m, iteration)
        invariant Now(onIteration) == Origin(m.wire, m.asked, m.seen)
        invariant m.View() == observation && m.records == iterations && m.stalled == noProgressIterations
      {
        ghost var o := turn(m, iteration);
        var step := Iterate(request, onIteration, observation, iterations, noProgressIterations, iteration, turn, m);
        match step {
          case Return(result) => return result;
          case Continue(next, longer, noProgress) =>
            observation, iterations, noProgressIterations := next, longer, noProgress;
            m := o.state;
        }
      }
      return Ok(BrowserLoopOutput(false, BlockedOutput(IterationLimit), observation, iterations));
    }

    /** The whole run does to the world, and reports, exactly what the state machine says; so all that is
        proved of every run of the machine holds of every run of this method. */
    method RunWithIterationObserver(request: BrowserLoopRequest, onIteration: IterationObserver)
      returns (r: BrowserResult<BrowserLoopOutput>)
      modifies client`nextId, client.transport`sent, planner`asked, onIteration`seen
      ensures var o := Run(WorldWith(onIteration), request, old(Now(onIteration)));
              r == Report(o) && Now(onIteration) == Aftermath(old(Now(onIteration)), o)
      // among other things: the observer saw the reported records, the actions on the wire are those of the
      // records, and no request id was used twice
      ensures r.Ok? ==> onIteration.seen == old(onIteration.seen) + r.value.iterations
      ensures old(client.transport.sent) <= client.transport.sent
      ensures r.Ok? ==>
                ActsSent(client.transport.sent[|old(client.transport.sent)|..]) == ActsRecorded(r.value.iterations)
      ensures DistinctIds(client.transport.sent, |old(client.transport.sent)|)
    {
      ghost var start := Now(onIteration);
      TraceIsConnected(WorldWith(onIteration), request, start);
      ActsAreRecorded(WorldWith(onIteration), request, start);
      IdsNeverRepeat(WorldWith(onIteration), request, start);
      match request.initialUrl {
        case None =>
        case Some(url) =>
          var landing := client.Call(Open, OpenParams(url, request.targetId));
          if landing.Err? {
            return Err(landing.error);
          }
      }
      var first := TakeSnapshot(request.targetId, onIteration);
      match first
      case Err(error) => return Err(error);
      case Ok(observation) =>
        ghost var turn := TurnOf(WorldWith(onIteration), request);
        forall m: Machine, i: nat ensures DrivesAt(turn, WorldWith(onIteration), request, m, i) {
          TurnContinues(WorldWith(onIteration), request, m, i);
        }
        r := RunTurns(request, onIteration, observation, turn, FirstState(start, client.CurrentWire(), observation));
    }
  }
}
