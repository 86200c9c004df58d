/** What errors, requests, records and results of the agent loop say, word for word. */
module BrowserLoopMeaning {
  import opened Wrappers
  import opened Json
  import opened Text
  import opened BrowserTypes
  import opened BrowserClient
  import opened BrowserLoopSpec
  import opened BrowserLoopTrail
  import opened BrowserLoopTheorems
  import opened BrowserLoopProgress

  // --- which errors a run survives ---

  /** The record of an iteration that led to this view was shown, and kept unless the observer objected. */
  ghost predicate Shown(world: World, m: Machine, s: Machine, status: IterationStatus, view: BrowserObservation) {
    && s.seen != [] && s.seen == m.seen + [s.seen[|s.seen| - 1]]
    && var r := s.seen[|s.seen| - 1];
       && r.status == status && r.urlAfter == view.url && r.snapshotHashAfter == view.snapshotHash
       && s.records == (if world.observer(|m.seen|, r).Ok? then m.records + [r] else m.records)
  }

  /** Having sent what is on `wire`, the loop asks for one snapshot more and records the page with this status; if
      there is no page to see the run fails. */
  ghost predicate LooksAgain(world: World, target: string, wire: Wire, m: Machine, status: IterationStatus,
                             o: Outcome) {
    !o.Unstarted? &&
    var sent, i := o.state.wire.sent, |wire.sent|;
    && wire.sent <= sent && |sent| == i + 1 && SnapshotRequested(target, sent, i)
    && (forall view :: SnapshotShows(world, target, sent, i, view) ==> Shown(world, m, o.state, status, view))
    && ((forall view :: !SnapshotShows(world, target, sent, i, view)) ==>
          o.Failed? && o.state.seen == m.seen && o.state.records == m.records)
  }

  lemma {:induction false} SnapshotDecides(world: World, wire: Wire, target: string)
    ensures var (wire', view) := TakeSnapshot(world, wire, target);
            && wire.sent <= wire'.sent && |wire'.sent| == |wire.sent| + 1
            && SnapshotRequested(target, wire'.sent, |wire.sent|)
            && forall next :: SnapshotShows(world, target, wire'.sent, |wire.sent|, next) <==> view == Ok(next)
  {
    SnapshotFacts(world, wire, target);
  }

  lemma {:induction false} CommitShows(world: World, m': Machine, m: Machine, r: BrowserLoopIteration,
                                       view: BrowserObservation)
    requires m'.seen == m.seen && m'.records == m.records
    requires r.urlAfter == view.url && r.snapshotHashAfter == view.snapshotHash
    ensures Shown(world, m, Commit(world, m', r, view).state, r.status, view)
    ensures Commit(world, m', r, view).state.wire == m'.wire
  {
  }

  lemma {:induction false} ResnapshotLooksAgain(world: World, target: string, m: Machine, iteration: nat, action: Json,
                                                expected: Option<string>, status: IterationStatus)
    ensures LooksAgain(world, target, m.wire, m, status,
                       Resnapshot(world, target, m, iteration, action, expected, status))
  {
    SnapshotDecides(world, m.wire, target);
    var (wire, view) := TakeSnapshot(world, m.wire, target);
    if view.Ok? {
      CommitShows(world, m.(wire := wire), m, MakeRecord(iteration, m.View(), action, expected, view.value, status),
                  view.value);
    }
  }

  lemma {:induction false} ActionErrorLooksAgain(world: World, target: string, m: Machine, iteration: nat, action: Json,
                                                 expected: Option<string>, error: BrowserSidecarError)
    ensures LooksAgain(world, target, m.wire, m, ActionErrorRecovered,
                       AfterActionError(world, target, m, iteration, action, expected, error))
  {
    SnapshotDecides(world, m.wire, target);
    var (wire, view) := TakeSnapshot(world, m.wire, target);
    if view.Ok? {
      var record := MakeRecord(iteration, m.View(), ActionErrorNote(error, action), expected, view.value,
                               ActionErrorRecovered);
      CommitShows(world, CountStall(m.(wire := wire), view.value), m, record, view.value);
    }
  }

  /** What the sidecar's error makes of an action: a stale reference and the four retryable errors that need no manual
      action make the loop look again; every other error ends the run at once. */
  lemma {:induction false} SidecarErrorDecides(world: World, target: string, m: Machine, iteration: nat, action: Json,
                                               expected: Option<string>, error: BrowserSidecarError)
    requires var (_, response) := Exchange(world.transport, m.wire, Act, action);
             response.Ok? && response.value.Error? && response.value.error == error
    ensures var o := ActTurn(world, target, m, iteration, action, expected);
            var wire := Exchange(world.transport, m.wire, Act, action).0;
            if error.code == "BROWSER_STALE_REF" then LooksAgain(world, target, wire, m, StaleRefRecovered, o)
            else if && error.retryable && !error.manualActionRequired
                    && error.code in {"BROWSER_FORM_FILL_FAILED", "BROWSER_ACTION_FAILED",
                                      "BROWSER_ACTION_TIMEOUT", "BROWSER_DIALOG_BLOCKED"} then
              LooksAgain(world, target, wire, m, ActionErrorRecovered, o)
            else o == Failed(m.(wire := wire), Sidecar(error.code + ":" + error.message))
  {
    var m' := m.(wire := Exchange(world.transport, m.wire, Act, action).0);
    if StaleRefError(error) {
      ResnapshotLooksAgain(world, target, m', iteration, action, expected, StaleRefRecovered);
    } else if RecoverableSidecarActionError(error) {
      ActionErrorLooksAgain(world, target, m', iteration, action, expected, error);
    }
  }

  /** The planner's error is one of the two complaints about references that the loop answers by asking again. */
  ghost predicate ComplainsAboutRefs(error: BrowserAutomationError) {
    && error.InvalidResponse?
    && (|| (exists i: nat :: OccursAt(error.message, "ref not present in current snapshot", i))
        || (exists i: nat :: OccursAt(error.message, "uses selector but selectors are not available", i)))
  }

  lemma {:induction false} ClassifierDecides(world: World, request: BrowserLoopRequest, m: Machine, iteration: nat,
                                             error: BrowserAutomationError)
    requires world.planner(|m.asked|, Ask(request, m)) == Err(error)
    ensures var o := Turn(world, request, m, iteration);
            if world.recoverable(error) then LooksAgain(world, request.targetId, m.wire, m, StaleRefRejected, o)
            else o == Failed(m.(asked := m.asked + [Ask(request, m)]), error)
  {
    var m' := m.(asked := m.asked + [Ask(request, m)]);
    RejectedLooksAgain(world, request.targetId, m, m', iteration, error);
  }

  lemma {:induction false} RejectedLooksAgain(world: World, target: string, m: Machine, m': Machine, iteration: nat,
                                              error: BrowserAutomationError)
    requires m' == m.(asked := m'.asked)
    ensures LooksAgain(world, target, m.wire, m, StaleRefRejected,
                       Resnapshot(world, target, m', iteration, PlannerErrorNote(error), Some(RetryHint(error)),
                                  StaleRefRejected))
  {
    ResnapshotLooksAgain(world, target, m', iteration, PlannerErrorNote(error), Some(RetryHint(error)),
                         StaleRefRejected);
  }

  lemma {:induction false} ComplaintsAreRecoverable(transport: Transport, planner: Planner, observer: Observer,
                                                    hash: Hasher, error: BrowserAutomationError)
    ensures SourceWorld(transport, planner, observer, hash).recoverable(error) <==> ComplainsAboutRefs(error)
  {
  }

  /** What the planner's error makes of an iteration: a complaint about references makes the loop look again, every
      other error ends the run and nothing is sent. */
  lemma {:induction false} PlannerErrorDecides(transport: Transport, planner: Planner, observer: Observer, hash: Hasher,
                                               request: BrowserLoopRequest, m: Machine, iteration: nat,
                                               error: BrowserAutomationError)
    requires planner(|m.asked|, PlannerCall(request, m.View(), m.records)) == Err(error)
    ensures var world := SourceWorld(transport, planner, observer, hash);
            var o := Turn(world, request, m, iteration);
            if ComplainsAboutRefs(error) then LooksAgain(world, request.targetId, m.wire, m, StaleRefRejected, o)
            else && o.Failed? && o.error == error && o.state.wire == m.wire && o.state.seen == m.seen
                 && o.state.records == m.records
  {
    ComplaintsAreRecoverable(transport, planner, observer, hash, error);
    ClassifierDecides(SourceWorld(transport, planner, observer, hash), request, m, iteration, error);
  }

  // --- what is sent ---

  /** An object with these keys and no others. */
  predicate HasKeys(value: Json, keys: set<string>) {
    value.JObject? && value.fields.Keys == keys
  }

  predicate OpensStart(request: BrowserLoopRequest, params: Json) {
    && request.initialUrl.Some? && HasKeys(params, {"url", "label"})
    && params.fields["url"] == JString(request.initialUrl.value)
    && params.fields["label"] == JString(request.targetId)
  }

  predicate AsksForPage(targetId: string, params: Json) {
    && HasKeys(params, {"target_id", "snapshot_format", "refs_mode", "mode", "interactive", "compact", "depth",
                        "max_chars", "urls"})
    && params.fields["target_id"] == JString(targetId)
    && params.fields["snapshot_format"] == JString("ai")
    && params.fields["refs_mode"] == JString("aria")
    && params.fields["mode"] == JString("efficient")
    && params.fields["interactive"] == JBool(true) && params.fields["compact"] == JBool(true)
    && params.fields["depth"] == JInt(10) && params.fields["max_chars"] == JInt(12000)
    && params.fields["urls"] == JBool(true)
  }

  lemma {:induction false} OpenParamsSay(request: BrowserLoopRequest)
    requires request.initialUrl.Some?
    ensures OpensStart(request, OpenParams(request.initialUrl.value, request.targetId))
  {
  }

  lemma {:induction false} SnapshotParamsSay(targetId: string)
    ensures AsksForPage(targetId, SnapshotParams(targetId))
  {
  }

  /** Each kind of request says what it is for, and none is addressed elsewhere. */
  predicate Says(request: BrowserLoopRequest, r: BrowserRequest) {
    match r.verb
    case Open => OpensStart(request, r.params)
    case Snapshot => AsksForPage(request.targetId, r.params)
    case Act => CarriesTarget(r.params, request.targetId)
  }

  /** The wire has sent nothing since `w` that does not say what it is for. */
  ghost predicate Adds(request: BrowserLoopRequest, w: Wire, w': Wire) {
    w.sent <= w'.sent && forall i :: |w.sent| <= i < |w'.sent| ==> Says(request, w'.sent[i])
  }

  ghost predicate AddsTo(request: BrowserLoopRequest, w: Wire, o: Outcome) {
    !o.Unstarted? && Adds(request, w, o.state.wire)
  }

  lemma {:induction false} AddsTwice(request: BrowserLoopRequest, w: Wire, w': Wire, w'': Wire)
    requires Adds(request, w, w') && Adds(request, w', w'')
    ensures Adds(request, w, w'')
  {
    forall i | |w.sent| <= i < |w''.sent| ensures Says(request, w''.sent[i]) {
      assert i < |w'.sent| ==> w''.sent[i] == w'.sent[i];
    }
  }

  lemma {:induction false} ExchangeAdds(world: World, request: BrowserLoopRequest, wire: Wire, verb: BrowserMethod,
                                        params: Json)
    requires Says(request, BrowserRequest(RequestId(wire.nextId), verb, params))
    ensures Adds(request, wire, Exchange(world.transport, wire, verb, params).0)
  {
  }

  lemma {:induction false} SnapshotAdds(world: World, request: BrowserLoopRequest, wire: Wire)
    ensures Adds(request, wire, TakeSnapshot(world, wire, request.targetId).0)
  {
    SnapshotParamsSay(request.targetId);
    ExchangeAdds(world, request, wire, Snapshot, SnapshotParams(request.targetId));
  }

  /** Nothing or one snapshot request has been sent since `wire`. */
  ghost predicate SendsOneSnapshot(world: World, target: string, wire: Wire, o: Outcome) {
    !o.Unstarted? && (o.state.wire == wire || o.state.wire == TakeSnapshot(world, wire, target).0)
  }

  lemma {:induction false} ResnapshotSends(world: World, target: string, m: Machine, iteration: nat, action: Json,
                                           expected: Option<string>, status: IterationStatus)
    ensures SendsOneSnapshot(world, target, m.wire, Resnapshot(world, target, m, iteration, action, expected, status))
  {
  }

  lemma {:induction false} ActionErrorSends(world: World, target: string, m: Machine, iteration: nat, action: Json,
                                            expected: Option<string>, error: BrowserSidecarError)
    ensures SendsOneSnapshot(world, target, m.wire,
                             AfterActionError(world, target, m, iteration, action, expected, error))
  {
  }

  lemma {:induction false} ActionSuccessSends(world: World, target: string, m: Machine, iteration: nat, action: Json,
                                              expected: Option<string>, result: Json)
    ensures SendsOneSnapshot(world, target, m.wire,
                             AfterActionSuccess(world, target, m, iteration, action, expected, result))
  {
  }

  lemma {:induction false} ActTurnSends(world: World, target: string, m: Machine, iteration: nat, action: Json,
                                        expected: Option<string>)
    ensures SendsOneSnapshot(world, target, Exchange(world.transport, m.wire, Act, action).0,
                             ActTurn(world, target, m, iteration, action, expected))
  {
    var (wire, response) := Exchange(world.transport, m.wire, Act, action);
    var m' := m.(wire := wire);
    match response
    case Ok(Success(_, true, result)) => ActionSuccessSends(world, target, m', iteration, action, expected, result);
    case Ok(Error(_, _, error)) =>
      ActionErrorSends(world, target, m', iteration, action, expected, error);
      ResnapshotSends(world, target, m', iteration, action, expected, StaleRefRecovered);
    case _ =>
  }

  lemma {:induction false} ActTurnAdds(world: World, request: BrowserLoopRequest, m: Machine, iteration: nat,
                                       action: Json, expected: Option<string>)
    requires CarriesTarget(action, request.targetId)
    ensures AddsTo(request, m.wire, ActTurn(world, request.targetId, m, iteration, action, expected))
  {
    var (wire, _) := Exchange(world.transport, m.wire, Act, action);
    ActTurnSends(world, request.targetId, m, iteration, action, expected);
    ExchangeAdds(world, request, m.wire, Act, action);
    SnapshotAdds(world, request, wire);
    AddsTwice(request, m.wire, wire, TakeSnapshot(world, wire, request.targetId).0);
  }

  lemma {:induction false} TurnAdds(world: World, request: BrowserLoopRequest, m: Machine, iteration: nat)
    ensures AddsTo(request, m.wire, Turn(world, request, m, iteration))
  {
    var call := Ask(request, m);
    var m' := m.(asked := m.asked + [call]);
    SnapshotAdds(world, request, m.wire);
    match world.planner(|m.asked|, call)
    case Ok(DecideAct(action, expected)) =>
      var normalized := NormalizedAction(action, request.targetId);
      if normalized.Ok? {
        ActTurnAdds(world, request, m', iteration, normalized.value, expected);
      }
    case _ =>
  }

  lemma {:induction false} TurnKeepsAdding(world: World, request: BrowserLoopRequest, w: Wire, m: Machine,
                                           iteration: nat)
    requires Adds(request, w, m.wire)
    ensures AddsTo(request, w, TurnOf(world, request)(m, iteration))
  {
    TurnAdds(world, request, m, iteration);
    AddsTwice(request, w, m.wire, Turn(world, request, m, iteration).state.wire);
  }

  lemma {:induction false} RunFromAdds(world: World, request: BrowserLoopRequest, w: Wire, m: Machine)
    requires Adds(request, w, m.wire)
    ensures AddsTo(request, w, RunFrom(TurnOf(world, request), request.maxIterations, m, 1))
  {
    var turn := TurnOf(world, request);
    var inv := (s: Machine, i: nat) => Adds(request, w, s.wire);
    var ended := (o: Outcome) => AddsTo(request, w, o);
    forall s: Machine, i: nat | inv(s, i) && i <= request.maxIterations ensures Leads(turn(s, i), i, inv, ended) {
      TurnKeepsAdding(world, request, w, s, i);
    }
    RunInduction(turn, request.maxIterations, m, 1, inv, ended);
  }

  lemma {:induction false} BeginAdds(world: World, request: BrowserLoopRequest, w: Wire, start: Origin)
    requires Adds(request, w, start.wire)
    ensures Adds(request, w, Aftermath(start, Begin(world, request, start)).wire)
  {
    var (wire, view) := TakeSnapshot(world, start.wire, request.targetId);
    SnapshotAdds(world, request, start.wire);
    AddsTwice(request, w, start.wire, wire);
    if view.Ok? {
      RunFromAdds(world, request, w, FirstState(start, wire, view.value));
    }
  }

  /** Every request of every run opens the start page under the label of the target, asks for the page of the target
      in the agreed form, or is an action that carries the target. */
  lemma {:induction false} RequestsSayWhatTheyAreFor(world: World, request: BrowserLoopRequest, start: Origin)
    ensures Adds(request, start.wire, Aftermath(start, Run(world, request, start)).wire)
  {
    match request.initialUrl
    case None => BeginAdds(world, request, start.wire, start);
    case Some(url) =>
      var params := OpenParams(url, request.targetId);
      var (wire, landing) := Invoke(world.transport, start.wire, Open, params);
      OpenParamsSay(request);
      ExchangeAdds(world, request, start.wire, Open, params);
      if landing.Ok? {
        BeginAdds(world, request, start.wire, start.(wire := wire));
      }
  }

  // --- what is recorded ---

  /** The sidecar's answer to the request at position `i` was this error. */
  predicate AnsweredWithError(world: World, sent: seq<BrowserRequest>, i: nat, error: BrowserSidecarError) {
    && i < |sent| && world.transport(i, sent[i]).Line?
    && world.transport(i, sent[i]).response.Error? && world.transport(i, sent[i]).response.error == error
  }

  /** A rejected choice is recorded with the planner's complaint, as it prints, and the hint given for the retry. */
  predicate TellsComplaint(r: BrowserLoopIteration, error: BrowserAutomationError) {
    && HasKeys(r.action, {"kind", "error"})
    && r.action.fields["kind"] == JString("planner_validation_error")
    && error.InvalidResponse? && r.action.fields["error"] == JString("invalid_response:" + error.message)
    && r.expectedObservation == Some("planner must retry using only refs from the current snapshot")
  }

  /** A failed action is recorded with the sidecar's code and message and the action itself. */
  predicate TellsFailure(r: BrowserLoopIteration, error: BrowserSidecarError, action: Json) {
    && HasKeys(r.action, {"kind", "error_code", "error", "failed_action"})
    && r.action.fields["kind"] == JString("action_error")
    && r.action.fields["error_code"] == JString(error.code)
    && r.action.fields["error"] == JString(error.message)
    && r.action.fields["failed_action"] == action
  }

  lemma {:induction false} ComplaintNote(r: BrowserLoopIteration, error: BrowserAutomationError)
    requires ComplainsAboutRefs(error)
    requires r.action == PlannerErrorNote(error) && r.expectedObservation == Some(RetryHint(error))
    ensures TellsComplaint(r, error)
  {
  }

  lemma {:induction false} FailureNote(r: BrowserLoopIteration, error: BrowserSidecarError, action: Json)
    requires r.action == ActionErrorNote(error, action)
    ensures TellsFailure(r, error, action)
  {
  }

  /** What record `k` says: of a rejected choice the planner's complaint, of a failed action the sidecar's error and the
      action that was sent, of every other the action that was sent. */
  ghost predicate RecordTells(world: World, start: Origin, m: Machine, k: nat)
    requires k < |m.records| && |m.cuts| == |m.records| + 1 && m.cuts[k] < |m.wire.sent|
    requires |start.asked| + k < |m.asked|
  {
    var r, sent, lo := m.records[k], m.wire.sent, m.cuts[k];
    var answer := world.planner(|start.asked| + k, m.asked[|start.asked| + k]);
    match r.status
    case StaleRefRejected => answer.Err? && TellsComplaint(r, answer.error)
    case ActionErrorRecovered =>
      exists error :: AnsweredWithError(world, sent, lo, error) && TellsFailure(r, error, sent[lo].params)
    case _ => sent[lo].verb.Act? && r.action == sent[lo].params
  }

  /** The planner's complaint behind a rejected choice, or the sidecar's error behind a failed action. */
  lemma {:induction false} CauseOf(world: World, request: BrowserLoopRequest, start: Origin, m: Machine, k: nat)
    requires ExplainedAt(world, request, start, m, k) && AskedAt(request, start, m, k)
    ensures m.cuts[k] < |m.wire.sent|
    ensures var r, sent, lo := m.records[k], m.wire.sent, m.cuts[k];
            var answer := world.planner(|start.asked| + k, m.asked[|start.asked| + k]);
            match r.status
            case StaleRefRejected =>
              && answer.Err? && world.recoverable(answer.error)
              && r.action == PlannerErrorNote(answer.error) && r.expectedObservation == Some(RetryHint(answer.error))
            case ActionErrorRecovered =>
              && world.transport(lo, sent[lo]).Line? && world.transport(lo, sent[lo]).response.Error?
              && r.action == ActionErrorNote(world.transport(lo, sent[lo]).response.error, sent[lo].params)
            case _ => sent[lo].verb.Act? && r.action == sent[lo].params
  {
  }

  lemma {:induction false} ExplainedRecordTells(transport: Transport, planner: Planner, observer: Observer,
                                                hash: Hasher, request: BrowserLoopRequest, start: Origin, m: Machine,
                                                k: nat)
    requires ExplainedAt(SourceWorld(transport, planner, observer, hash), request, start, m, k)
    requires AskedAt(request, start, m, k)
    ensures m.cuts[k] < |m.wire.sent| && RecordTells(SourceWorld(transport, planner, observer, hash), start, m, k)
  {
    var world := SourceWorld(transport, planner, observer, hash);
    var r, lo := m.records[k], m.cuts[k];
    CauseOf(world, request, start, m, k);
    match r.status
    case StaleRefRejected =>
      var error := world.planner(|start.asked| + k, m.asked[|start.asked| + k]).error;
      ComplaintsAreRecoverable(transport, planner, observer, hash, error);
      ComplaintNote(r, error);
    case ActionErrorRecovered =>
      var error := world.transport(lo, m.wire.sent[lo]).response.error;
      FailureNote(r, error, m.wire.sent[lo].params);
      assert AnsweredWithError(world, m.wire.sent, lo, error);
    case _ =>
  }

  ghost predicate RecordsTell(world: World, start: Origin, m: Machine) {
    && |m.cuts| == |m.records| + 1 && |m.asked| >= |start.asked| + |m.records|
    && forall k :: 0 <= k < |m.records| ==> m.cuts[k] < |m.wire.sent| && RecordTells(world, start, m, k)
  }

  /** Every record of every run says what happened, in the words of planner and sidecar. */
  lemma {:induction false} RecordsTellWhatHappened(transport: Transport, planner: Planner, observer: Observer,
                                                   hash: Hasher, request: BrowserLoopRequest, start: Origin)
    ensures var world := SourceWorld(transport, planner, observer, hash);
            var o := Run(world, request, start);
            o.Unstarted? || RecordsTell(world, start, o.state)
  {
    var world := SourceWorld(transport, planner, observer, hash);
    TrailIsFaithful(world, request, start);
    var o := Run(world, request, start);
    if !o.Unstarted? {
      FaithfulTells(transport, planner, observer, hash, request, start, o.state);
    }
  }

  lemma {:induction false} FaithfulTells(transport: Transport, planner: Planner, observer: Observer, hash: Hasher,
                                         request: BrowserLoopRequest, start: Origin, m: Machine)
    requires Faithful(SourceWorld(transport, planner, observer, hash), request, start, m)
    ensures RecordsTell(SourceWorld(transport, planner, observer, hash), start, m)
  {
    var world := SourceWorld(transport, planner, observer, hash);
    forall k | 0 <= k < |m.records| ensures m.cuts[k] < |m.wire.sent| && RecordTells(world, start, m, k) {
      assert ExplainedAt(world, request, start, m, k) && AskedAt(request, start, m, k);
      ExplainedRecordTells(transport, planner, observer, hash, request, start, m, k);
    }
  }

  // --- what is reported ---

  predicate Blocked(output: Json, reason: string) {
    HasKeys(output, {"blocked_reason"}) && output.fields["blocked_reason"] == JString(reason)
  }

  /** The planner gave up in its last answer, and its words are reported. */
  ghost predicate GivenUp(world: World, s: Machine, output: Json) {
    && s.asked != [] && world.planner(|s.asked| - 1, s.asked[|s.asked| - 1]).Ok?
    && var decision := world.planner(|s.asked| - 1, s.asked[|s.asked| - 1]).value;
       decision.DecideBlocked? && Blocked(output, decision.reason)
  }

  predicate StoppedUnchanged(s: Machine, status: IterationStatus, output: Json, reason: string) {
    Streak(s.records) == 2 && EndsWith(s.records, status) && Blocked(output, reason)
  }

  predicate UsedUp(request: BrowserLoopRequest, s: Machine, output: Json) {
    && Streak(s.records) < 2 && |s.records| == request.maxIterations
    && Blocked(output, "max browser loop iterations reached")
  }

  /** The report on a run that was not completed says why it stopped: in the planner's words if the planner gave up, or
      after two unchanged pages in a row, told apart by the last record, or because all iterations are used up. */
  ghost predicate TellsWhy(world: World, request: BrowserLoopRequest, s: Machine, r: BrowserLoopOutput) {
    && r.iterations == s.records && r.finalObservation == s.views[|s.views| - 1]
    && (|| r.completed
        || GivenUp(world, s, r.output)
        || StoppedUnchanged(s, ActionErrorRecovered, r.output,
                            "browser loop made no observable progress after repeated retryable action errors")
        || StoppedUnchanged(s, NoProgress, r.output,
                            "browser loop made no observable progress after repeated actions")
        || UsedUp(request, s, r.output))
  }

  lemma {:induction false} BlockedOutputSays(reason: StopReason)
    ensures Blocked(BlockedOutput(reason), BlockedText(reason))
  {
  }

  lemma {:induction false} StreakTellsWhy(maxIterations: nat, s: Machine, reason: StopReason, output: Json)
    requires EndCounts(maxIterations, Stopped(s, reason, output)) && Blocked(output, BlockedText(reason))
    ensures reason.RepeatedErrors? ==>
              StoppedUnchanged(s, ActionErrorRecovered, output,
                               "browser loop made no observable progress after repeated retryable action errors")
    ensures reason.RepeatedNoProgress? ==>
              StoppedUnchanged(s, NoProgress, output,
                               "browser loop made no observable progress after repeated actions")
  {
  }

  lemma {:induction false} LimitTellsWhy(request: BrowserLoopRequest, s: Machine, reason: StopReason, output: Json)
    requires EndCounts(request.maxIterations, Stopped(s, reason, output)) && Blocked(output, BlockedText(reason))
    ensures reason.IterationLimit? ==> UsedUp(request, s, output)
  {
  }

  lemma {:induction false} PlannerTellsWhy(world: World, request: BrowserLoopRequest, start: Origin, s: Machine,
                                           reason: StopReason, output: Json)
    requires Faithful(world, request, start, s) && StopExplained(world, request, start, s, reason, output)
    requires Blocked(BlockedOutput(reason), BlockedText(reason))
    ensures reason.PlannerBlocked? ==> GivenUp(world, s, output)
    ensures !reason.PlannerCompleted? ==> Blocked(output, BlockedText(reason))
  {
    if reason.PlannerBlocked? {
      LastQuestion(world, request, start, s);
    }
  }

  lemma {:induction false} StoppedTellsWhy(world: World, request: BrowserLoopRequest, start: Origin, o: Outcome)
    requires o.Stopped? && Ended(world, request, start, o) && EndCounts(request.maxIterations, o)
    ensures TellsWhy(world, request, o.state, Report(o).value)
  {
    BlockedOutputSays(o.reason);
    PlannerTellsWhy(world, request, start, o.state, o.reason, o.output);
    match o.reason
    case PlannerCompleted =>
    case PlannerBlocked(_) =>
    case IterationLimit => LimitTellsWhy(request, o.state, o.reason, o.output);
    case _ => StreakTellsWhy(request.maxIterations, o.state, o.reason, o.output);
  }

  /** Every report tells why its run stopped, with the run's own records and last page. */
  lemma {:induction false} ReportTellsWhy(world: World, request: BrowserLoopRequest, start: Origin)
    ensures var o := Run(world, request, start);
            o.Stopped? ==> TellsWhy(world, request, o.state, Report(o).value)
  {
    TrailIsFaithful(world, request, start);
    StopsAreExact(world, request, start);
    var o := Run(world, request, start);
    if o.Stopped? {
      StoppedTellsWhy(world, request, start, o);
    }
  }
}
