/** The agent loop as a state machine over values: what one turn does to the wire, the planner,
    the observer and the audit trail, and how a whole run folds those turns. */
module BrowserLoopSpec {
  import opened Wrappers
  import opened Json
  import opened BrowserTypes
  import opened BrowserClient

  datatype World = World(transport: Transport, planner: Planner, observer: Observer, observe: Viewer,
                         recoverable: Classifier)

  /** The world of the source: pages are read and planner errors are told apart as `browser_loop.rs` does it. */
  function SourceWorld(transport: Transport, planner: Planner, observer: Observer, hash: Hasher): World {
    World(transport, planner, observer,
          (value: Json, target: string) => ObservationFromValue(hash, value, target),
          (error: BrowserAutomationError) => RecoverablePlannerValidationError(error))
  }

  /** The state of a run. `views` are the observations that were current one after the other (the last one
      is current now) and `cuts` says how much had been sent when each of them became current. */
  datatype MachineState =
    MachineState(
      wire: Wire,
      asked: seq<PlannerCall>,
      seen: seq<BrowserLoopIteration>,
      records: seq<BrowserLoopIteration>,
      views: seq<BrowserObservation>,
      cuts: seq<nat>,
      stalled: nat)
  {
    function View(): BrowserObservation
      requires views != []
    {
      views[|views| - 1]
    }
  }

  /** A machine always has a current view. */
  type Machine = m: MachineState | m.views != []
    witness MachineState(Wire(1, []), [], [], [], [BrowserObservation("", "", "", "", "", "", 0)], [], 0)

  datatype Outcome =
    | Running(state: Machine)
    | Stopped(state: Machine, reason: StopReason, output: Json)
    | Failed(state: Machine, error: BrowserAutomationError)
    | Unstarted(wire: Wire, error: BrowserAutomationError)

  /** The world before a run. */
  datatype Origin = Origin(wire: Wire, asked: seq<PlannerCall>, seen: seq<BrowserLoopIteration>)

  function TakeSnapshot(world: World, wire: Wire, targetId: string): (Wire, BrowserResult<BrowserObservation>) {
    var (wire', value) := Invoke(world.transport, wire, Snapshot, SnapshotParams(targetId));
    match value
    case Err(error) => (wire', Err(error))
    case Ok(value) => (wire', world.observe(value, targetId))
  }

  function MakeRecord(iteration: nat, before: BrowserObservation, action: Json, expected: Option<string>,
                      after: BrowserObservation, status: IterationStatus): BrowserLoopIteration {
    BrowserLoopIteration(iteration, before.url, before.snapshotHash, action, expected,
                         after.url, after.snapshotHash, status)
  }

  predicate Progressed(before: BrowserObservation, after: BrowserObservation) {
    after.url != before.url || after.snapshotHash != before.snapshotHash
  }

  /** Show the record to the observer and, unless it objects, append it and adopt the new view. */
  function Commit(world: World, m: Machine, record: BrowserLoopIteration, next: BrowserObservation): (o: Outcome)
    ensures (o.Running? || o.Failed?) && o.state.wire == m.wire
  {
    var shown := m.(seen := m.seen + [record]);
    match world.observer(|m.seen|, record)
    case Err(error) => Failed(shown, error)
    case Ok(_) =>
      Running(shown.(records := m.records + [record], views := m.views + [next], cuts := m.cuts + [|m.wire.sent|]))
  }

  /** Stop once the counter of unchanged observations has reached its limit. */
  function StopIfStalled(o: Outcome, reason: StopReason): Outcome {
    if o.Running? && o.state.stalled >= MAX_NO_PROGRESS_ITERATIONS then Stopped(o.state, reason, BlockedOutput(reason))
    else o
  }

  /** Take a fresh snapshot and commit a record that leads to it. */
  function Resnapshot(world: World, target: string, m: Machine, iteration: nat, action: Json, expected: Option<string>,
                      status: IterationStatus): Outcome
  {
    var (wire, view) := TakeSnapshot(world, m.wire, target);
    var m' := m.(wire := wire);
    match view
    case Err(error) => Failed(m', error)
    case Ok(next) => Commit(world, m', MakeRecord(iteration, m.View(), action, expected, next, status), next)
  }

  function CountStall(m: Machine, next: BrowserObservation): Machine
  {
    m.(stalled := if Progressed(m.View(), next) then 0 else m.stalled + 1)
  }

  /** Commit a record that counts towards the no-progress limit. */
  function Counted(world: World, m: Machine, iteration: nat, action: Json, expected: Option<string>,
                   next: BrowserObservation, status: IterationStatus): Outcome
  {
    Commit(world, CountStall(m, next), MakeRecord(iteration, m.View(), action, expected, next, status), next)
  }

  function AfterActionError(world: World, target: string, m: Machine, iteration: nat, action: Json,
                            expected: Option<string>, error: BrowserSidecarError): Outcome
  {
    var (wire, view) := TakeSnapshot(world, m.wire, target);
    var m' := m.(wire := wire);
    match view
    case Err(error) => Failed(m', error)
    case Ok(next) =>
      StopIfStalled(
        Counted(world, m', iteration, ActionErrorNote(error, action), expected, next, ActionErrorRecovered),
        RepeatedErrors)
  }

  function AfterActionSuccess(world: World, target: string, m: Machine, iteration: nat, action: Json,
                              expected: Option<string>, result: Json): Outcome
  {
    var (wire, view) :=
      if result.GetString("snapshot").Some? then (m.wire, world.observe(result, target))
      else TakeSnapshot(world, m.wire, target);
    var m' := m.(wire := wire);
    match view
    case Err(error) => Failed(m', error)
    case Ok(next) =>
      StopIfStalled(
        Counted(world, m', iteration, action, expected, next,
                if Progressed(m.View(), next) then Observed else NoProgress),
        RepeatedNoProgress)
  }

  function ActTurn(world: World, target: string, m: Machine, iteration: nat, action: Json,
                   expected: Option<string>): Outcome
  {
    var (wire, response) := Exchange(world.transport, m.wire, Act, action);
    var m' := m.(wire := wire);
    match response
    case Err(error) => Failed(m', error)
    case Ok(Success(_, true, result)) => AfterActionSuccess(world, target, m', iteration, action, expected, result)
    case Ok(Success(_, false, _)) => Failed(m', InvalidResponse("browser act response has ok=false"))
    case Ok(Error(_, _, error)) =>
      if StaleRefError(error) then Resnapshot(world, target, m', iteration, action, expected, StaleRefRecovered)
      else if RecoverableSidecarActionError(error) then
        AfterActionError(world, target, m', iteration, action, expected, error)
      else Failed(m', SidecarFailure(error))
  }

  function Ask(request: BrowserLoopRequest, m: Machine): PlannerCall
  {
    PlannerCall(request, m.View(), m.records)
  }

  /** One iteration of the loop. */
  function Turn(world: World, request: BrowserLoopRequest, m: Machine, iteration: nat): Outcome {
    var call := Ask(request, m);
    var m' := m.(asked := m.asked + [call]);
    match world.planner(|m.asked|, call)
    case Err(error) =>
      if world.recoverable(error) then
        Resnapshot(world, request.targetId, m', iteration, PlannerErrorNote(error), Some(RetryHint(error)),
                   StaleRefRejected)
      else Failed(m', error)
    case Ok(DecideComplete(output)) => Stopped(m', PlannerCompleted, output)
    case Ok(DecideBlocked(reason)) => Stopped(m', PlannerBlocked(reason), BlockedOutput(PlannerBlocked(reason)))
    case Ok(DecideAct(action, expected)) =>
      match NormalizedAction(action, request.targetId)
      case Err(error) => Failed(m', error)
      case Ok(action) => ActTurn(world, request.targetId, m', iteration, action, expected)
  }

  /** The turn function of a loop: the state and the iteration number give the outcome. */
  type TurnFunction = (Machine, nat) -> Outcome

  function TurnOf(world: World, request: BrowserLoopRequest): TurnFunction {
    (m: Machine, iteration: nat) => Turn(world, request, m, iteration)
  }

  /** Take turns until one of them ends the run or all iterations are used up. */
  function RunFrom(turn: TurnFunction, maxIterations: nat, m: Machine, iteration: nat): (o: Outcome)
    ensures !o.Running?
    decreases maxIterations + 1 - iteration
  {
    if iteration > maxIterations then Stopped(m, IterationLimit, BlockedOutput(IterationLimit))
    else
      var o := turn(m, iteration);
      if o.Running? then RunFrom(turn, maxIterations, o.state, iteration + 1) else o
  }

  /** A whole run: open the start page if there is one, look at it, then iterate. */
  function Run(world: World, request: BrowserLoopRequest, start: Origin): (o: Outcome)
    ensures !o.Running?
  {
    match request.initialUrl
    case None => Begin(world, request, start)
    case Some(url) =>
      var (wire, landing) := Invoke(world.transport, start.wire, Open, OpenParams(url, request.targetId));
      match landing
      case Err(error) => Unstarted(wire, error)
      case Ok(_) => Begin(world, request, start.(wire := wire))
  }

  function FirstState(start: Origin, wire: Wire, view: BrowserObservation): Machine {
    MachineState(wire, start.asked, start.seen, [], [view], [|wire.sent|], 0)
  }

  function Begin(world: World, request: BrowserLoopRequest, start: Origin): (o: Outcome)
    ensures !o.Running?
  {
    var (wire, view) := TakeSnapshot(world, start.wire, request.targetId);
    match view
    case Err(error) => Unstarted(wire, error)
    case Ok(view) => RunFrom(TurnOf(world, request), request.maxIterations, FirstState(start, wire, view), 1)
  }

  /** What the caller gets back. */
  function Report(o: Outcome): BrowserResult<BrowserLoopOutput>
    requires !o.Running?
  {
    match o
    case Stopped(m, reason, output) => Ok(BrowserLoopOutput(reason.PlannerCompleted?, output, m.View(), m.records))
    case Failed(_, error) => Err(error)
    case Unstarted(_, error) => Err(error)
  }

  /** The wire, the questions and the notifications after a run. */
  function Aftermath(start: Origin, o: Outcome): Origin {
    match o
    case Unstarted(wire, _) => start.(wire := wire)
    case _ => Origin(o.state.wire, o.state.asked, o.state.seen)
  }

  // --- induction over the turns of a run ---

  /** A turn taken where `inv` holds leads to where it holds again or brings about `ended`; and so does using up
      all iterations. */
  ghost predicate Preserves(turn: TurnFunction, maxIterations: nat, inv: (Machine, nat) -> bool,
                            ended: Outcome -> bool) {
    && (forall s: Machine, i: nat :: inv(s, i) && i <= maxIterations ==> Leads(turn(s, i), i, inv, ended))
    && (forall s: Machine :: inv(s, maxIterations + 1) ==>
          ended(Stopped(s, IterationLimit, BlockedOutput(IterationLimit))))
  }

  ghost predicate Leads(o: Outcome, i: nat, inv: (Machine, nat) -> bool, ended: Outcome -> bool) {
    if o.Running? then inv(o.state, i + 1) else ended(o)
  }

  lemma {:induction false} RunInduction(turn: TurnFunction, maxIterations: nat, m: Machine, iteration: nat,
                                        inv: (Machine, nat) -> bool, ended: Outcome -> bool)
    requires inv(m, iteration) && iteration <= maxIterations + 1
    requires Preserves(turn, maxIterations, inv, ended)
    ensures ended(RunFrom(turn, maxIterations, m, iteration))
    decreases maxIterations + 1 - iteration
  {
    if iteration <= maxIterations {
      var o := turn(m, iteration);
      assert Leads(o, iteration, inv, ended);
      if o.Running? {
        RunInduction(turn, maxIterations, o.state, iteration + 1, inv, ended);
      }
    }
  }
}
