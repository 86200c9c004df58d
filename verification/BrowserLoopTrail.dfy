/** The audit trail of a run tells exactly what happened on the wire, what the planner was asked
    and what the observer was shown, whatever the transport, planner and observer do. */
module BrowserLoopTrail {
  import opened Wrappers
  import opened Json
  import opened BrowserTypes
  import opened BrowserClient
  import opened BrowserLoopSpec

  /** The request at position `i` is a snapshot request whose accepted, successful answer shows `view`. */
  predicate SnapshotShows(world: World, target: string, sent: seq<BrowserRequest>, i: nat, view: BrowserObservation) {
    && i < |sent|
    && sent[i].verb == Snapshot && sent[i].params == SnapshotParams(target)
    && world.transport(i, sent[i]).Line?
    && var response := world.transport(i, sent[i]).response;
       && Succeeded(world.transport, sent, i, if response.Success? then response.result else JNull)
       && world.observe(response.result, target) == Ok(view)
  }

  /** The planner answered its question with an action, which went out normalised at position `i` and was accepted. */
  predicate ActSent(world: World, target: string, sent: seq<BrowserRequest>, i: nat,
                    decision: BrowserResult<BrowserLoopDecision>, action: Json, expected: Option<string>) {
    && i < |sent|
    && decision.Ok? && decision.value.DecideAct?
    && NormalizedAction(decision.value.action, target) == Ok(action)
    && decision.value.expectedObservation == expected
    && sent[i].verb == Act && sent[i].params == action
    && world.transport(i, sent[i]).Line?
    && Accepted(world.transport, sent, i, world.transport(i, sent[i]).response)
  }

  /** The action that the record says was sent, if one was. */
  function ActionOf(r: BrowserLoopIteration): Option<Json> {
    match r.status
    case StaleRefRejected => None
    case ActionErrorRecovered => r.action.Get("failed_action")
    case _ => Some(r.action)
  }

  /** Record `r` is explained by the requests at positions `lo .. hi`, by the planner's answer to its question
      number `question`, and by the observations before and after. */
  predicate Explains(world: World, request: BrowserLoopRequest, sent: seq<BrowserRequest>, lo: nat, hi: nat,
                     question: nat, before: BrowserObservation, earlier: seq<BrowserLoopIteration>,
                     r: BrowserLoopIteration, after: BrowserObservation) {
    var target := request.targetId;
    var decision := world.planner(question, PlannerCall(request, before, earlier));
    && lo < hi <= |sent|
    && r.iteration == |earlier| + 1
    && r.urlBefore == before.url && r.snapshotHashBefore == before.snapshotHash
    && r.urlAfter == after.url && r.snapshotHashAfter == after.snapshotHash
    && (if r.status.StaleRefRejected? then
          && hi == lo + 1
          && SnapshotShows(world, target, sent, lo, after)
          && decision.Err? && world.recoverable(decision.error)
          && r.action == PlannerErrorNote(decision.error)
          && r.expectedObservation == Some(RetryHint(decision.error))
        else
          && ActionOf(r).Some?
          && ActSent(world, target, sent, lo, decision, ActionOf(r).value, r.expectedObservation)
          && Outcomes(world, target, sent, lo, hi, r, after))
  }

  /** How the sidecar's answer to the action at `lo` decides the record's status and the requests that follow. */
  predicate Outcomes(world: World, target: string, sent: seq<BrowserRequest>, lo: nat, hi: nat, r: BrowserLoopIteration,
                     after: BrowserObservation)
    requires lo < |sent| && world.transport(lo, sent[lo]).Line? && ActionOf(r).Some?
  {
    match world.transport(lo, sent[lo]).response
    case Error(_, _, error) =>
      && hi == lo + 2
      && SnapshotShows(world, target, sent, lo + 1, after)
      && (if StaleRefError(error) then r.status == StaleRefRecovered
          else
            && RecoverableSidecarActionError(error)
            && r.status == ActionErrorRecovered
            && r.action == ActionErrorNote(error, ActionOf(r).value))
    case Success(_, ok, result) =>
      && ok
      && r.status == (if Unchanged(r) then NoProgress else Observed)
      && (if result.GetString("snapshot").Some? then
            hi == lo + 1 && world.observe(result, target) == Ok(after)
          else
            hi == lo + 2 && SnapshotShows(world, target, sent, lo + 1, after))
  }

  /** Number of requests before the first turn. */
  function Preamble(request: BrowserLoopRequest): nat {
    if request.initialUrl.Some? then 2 else 1
  }

  /** The run opened the start page, if it has one, and then took one snapshot. */
  predicate Opening(world: World, request: BrowserLoopRequest, sent: seq<BrowserRequest>, base: nat,
                    first: BrowserObservation) {
    && base + Preamble(request) <= |sent|
    && (request.initialUrl.Some? ==>
          && sent[base].verb == Open
          && sent[base].params == OpenParams(request.initialUrl.value, request.targetId)
          && world.transport(base, sent[base]).Line?
          && Accepted(world.transport, sent, base, world.transport(base, sent[base]).response)
          && ResultOf(world.transport(base, sent[base]).response).Ok?)
    && SnapshotShows(world, request.targetId, sent, base + Preamble(request) - 1, first)
  }

  /** Record `k` is explained by the requests between the cuts around it. */
  ghost predicate ExplainedAt(world: World, request: BrowserLoopRequest, start: Origin, m: Machine, k: nat) {
    && k < |m.records| && |m.views| == |m.cuts| == |m.records| + 1
    && Explains(world, request, m.wire.sent, m.cuts[k], m.cuts[k + 1], |start.asked| + k,
                m.views[k], m.records[..k], m.records[k], m.views[k + 1])
  }

  /** Question `k` showed the planner the then current observation and the records up to then. */
  ghost predicate AskedAt(request: BrowserLoopRequest, start: Origin, m: Machine, k: nat) {
    && k < |m.views| && k <= |m.records| && |start.asked| + k < |m.asked|
    && m.asked[|start.asked| + k] == PlannerCall(request, m.views[k], m.records[..k])
  }

  ghost predicate ApprovedAt(world: World, start: Origin, m: Machine, k: nat) {
    k < |m.records| && world.observer(|start.seen| + k, m.records[k]).Ok?
  }

  /** Everything the state says about the past is true of the requests, questions and notifications. */
  ghost predicate Faithful(world: World, request: BrowserLoopRequest, start: Origin, m: Machine) {
    var n, base, sent := |m.records|, |start.wire.sent|, m.wire.sent;
    && |m.views| == |m.cuts| == n + 1
    && start.wire.sent <= sent && start.asked <= m.asked && start.seen + m.records <= m.seen
    && Opening(world, request, sent, base, m.views[0]) && m.cuts[0] == base + Preamble(request)
    && m.cuts[n] <= |sent| <= m.cuts[n] + 2
    && n <= |m.asked| - |start.asked| <= n + 1
    && (forall k :: 0 <= k < n ==> ExplainedAt(world, request, start, m, k))
    && (forall k :: 0 <= k < |m.asked| - |start.asked| ==> AskedAt(request, start, m, k))
    && (forall k :: 0 <= k < n ==> ApprovedAt(world, start, m, k))
  }

  /** Between two turns nothing is left unexplained. */
  ghost predicate Settled(world: World, request: BrowserLoopRequest, start: Origin, m: Machine) {
    && Faithful(world, request, start, m)
    && m.cuts[|m.records|] == |m.wire.sent|
    && m.seen == start.seen + m.records
  }

  /** The last request is the one whose answer is the reported error. */
  predicate WireFailure(world: World, target: string, sent: seq<BrowserRequest>, error: BrowserAutomationError) {
    && sent != []
    && var i := |sent| - 1;
       match world.transport(i, sent[i])
       case SendFailed(e) => error == e
       case Unparsable(message) => error == InvalidResponse(message)
       case Line(response) =>
         if response.id != sent[i].id then
           error == InvalidResponse("response id mismatch:" + response.id + " != " + sent[i].id)
         else match response
           case Error(_, _, e) =>
             && error == Sidecar(e.code + ":" + e.message)
             && (sent[i].verb == Act ==> !StaleRefError(e) && !RecoverableSidecarActionError(e))
           case Success(_, false, _) =>
             error == InvalidResponse(if sent[i].verb == Act then "browser act response has ok=false"
                                      else "success response has ok=false")
           case Success(_, true, result) =>
             sent[i].verb != Open && Err(error) == world.observe(result, target)
  }

  /** The last question is the one whose answer is the reported error. */
  predicate PlannerFailure(world: World, asked: seq<PlannerCall>, error: BrowserAutomationError) {
    && asked != []
    && var answer := world.planner(|asked| - 1, asked[|asked| - 1]);
       || (answer == Err(error) && !world.recoverable(error))
       || (answer.Ok? && answer.value.DecideAct? && !answer.value.action.JObject?
           && error == InvalidResponse("browser loop action must be a JSON object"))
  }

  /** The observer refused the last record it was shown. */
  predicate ObserverFailure(world: World, seen: seq<BrowserLoopIteration>, error: BrowserAutomationError) {
    seen != [] && world.observer(|seen| - 1, seen[|seen| - 1]) == Err(error)
  }

  /** What an iteration that was cut short has sent from position `lo` on: a snapshot request if the planner's choice
      was rejected, else the action it decided on and perhaps a snapshot request. */
  predicate Attempted(world: World, target: string, sent: seq<BrowserRequest>, lo: nat,
                      decision: BrowserResult<BrowserLoopDecision>) {
    && lo < |sent| <= lo + 2
    && if decision.Err? then |sent| == lo + 1 && SnapshotRequested(target, sent, lo)
       else
         && decision.value.DecideAct?
         && sent[lo].verb == Act && NormalizedAction(decision.value.action, target) == Ok(sent[lo].params)
         && (|sent| == lo + 2 ==> SnapshotRequested(target, sent, lo + 1))
  }

  predicate SnapshotRequested(target: string, sent: seq<BrowserRequest>, i: nat) {
    i < |sent| && sent[i].verb == Snapshot && sent[i].params == SnapshotParams(target)
  }

  /** A run that fails after its first observation reports one of three failures, and says which. */
  ghost predicate FailureExplained(world: World, request: BrowserLoopRequest, start: Origin, m: Machine,
                                   error: BrowserAutomationError) {
    && Faithful(world, request, start, m)
    && |m.asked| == |start.asked| + |m.records| + 1
    && (|| (&& PlannerFailure(world, m.asked, error)
            && m.seen == start.seen + m.records && |m.wire.sent| == m.cuts[|m.records|])
        || (&& WireFailure(world, request.targetId, m.wire.sent, error)
            && m.seen == start.seen + m.records
            && Attempted(world, request.targetId, m.wire.sent, m.cuts[|m.records|], Decision(world, request, start, m)))
        || (&& ObserverFailure(world, m.seen, error)
            && RefusedRecord(world, request, start, m)))
  }

  /** The observer saw the recorded prefix and one further record, which is explained like the others. */
  ghost predicate RefusedRecord(world: World, request: BrowserLoopRequest, start: Origin, m: Machine) {
    && |m.seen| == |start.seen| + |m.records| + 1
    && exists after :: RefusedLeadingTo(world, request, start, m, after)
  }

  ghost predicate RefusedLeadingTo(world: World, request: BrowserLoopRequest, start: Origin, m: Machine,
                                   after: BrowserObservation) {
    && |m.views| == |m.cuts| == |m.records| + 1 && m.seen != []
    && Explains(world, request, m.wire.sent, m.cuts[|m.records|], |m.wire.sent|, |start.asked| + |m.records|,
                m.View(), m.records, m.seen[|m.seen| - 1], after)
  }

  // --- one turn ---

  /** What a turn may have changed before it commits: it asked one question and sent at most two requests. */
  ghost predicate Probe(request: BrowserLoopRequest, m: Machine, m': Machine) {
    && m' == m.(asked := m.asked + [Ask(request, m)], wire := m'.wire, stalled := m'.stalled)
    && m.wire.sent <= m'.wire.sent && |m'.wire.sent| <= |m.wire.sent| + 2
  }

  /** Explanations survive whatever is appended later. */
  lemma {:induction false} ExplanationsLast(world: World, request: BrowserLoopRequest, start: Origin, m: Machine,
                                            m': Machine, k: nat)
    requires ExplainedAt(world, request, start, m, k)
    requires m.wire.sent <= m'.wire.sent && m.records <= m'.records && m.views <= m'.views && m.cuts <= m'.cuts
    requires |m'.views| == |m'.cuts| == |m'.records| + 1
    ensures ExplainedAt(world, request, start, m', k)
  {
    var lo := m.cuts[k];
    assert m'.wire.sent[lo] == m.wire.sent[lo];
    if m.cuts[k + 1] == lo + 2 {
      assert m'.wire.sent[lo + 1] == m.wire.sent[lo + 1];
    }
    assert m'.records[..k] == m.records[..k];
  }

  lemma {:induction false} ProbeStaysFaithful(world: World, request: BrowserLoopRequest, start: Origin, m: Machine,
                                              m': Machine)
    requires Settled(world, request, start, m) && |m.asked| == |start.asked| + |m.records|
    requires Probe(request, m, m')
    ensures Faithful(world, request, start, m')
  {
    var base := |start.wire.sent|;
    assert m'.wire.sent[base] == m.wire.sent[base];
    assert m'.wire.sent[base + Preamble(request) - 1] == m.wire.sent[base + Preamble(request) - 1];
    forall k | 0 <= k < |m.records| ensures ExplainedAt(world, request, start, m', k) {
      ExplanationsLast(world, request, start, m, m', k);
    }
    forall k | 0 <= k < |m'.asked| - |start.asked| ensures AskedAt(request, start, m', k) {
      if k < |m.records| {
        assert AskedAt(request, start, m, k);
      } else {
        assert m.records[..k] == m.records;
      }
    }
    forall k | 0 <= k < |m.records| ensures ApprovedAt(world, start, m', k) {
      assert ApprovedAt(world, start, m, k);
    }
  }

  /** The state after a commit, field by field. */
  ghost predicate Grown(m: Machine, s: Machine, record: BrowserLoopIteration, next: BrowserObservation) {
    && s.wire == m.wire && s.asked == m.asked
    && s.seen == m.seen + [record] && s.records == m.records + [record]
    && s.views == m.views + [next] && s.cuts == m.cuts + [|m.wire.sent|]
  }

  lemma {:induction false} NewRecordExplained(world: World, request: BrowserLoopRequest, start: Origin, m: Machine,
                                              s: Machine, record: BrowserLoopIteration, next: BrowserObservation)
    requires |m.views| == |m.cuts| == |m.records| + 1 && Grown(m, s, record, next)
    requires Explains(world, request, m.wire.sent, m.cuts[|m.records|], |m.wire.sent|, |start.asked| + |m.records|,
                      m.View(), m.records, record, next)
    ensures ExplainedAt(world, request, start, s, |m.records|)
  {
    assert s.records[..|m.records|] == m.records;
  }

  lemma {:induction false} QuestionsLast(request: BrowserLoopRequest, start: Origin, m: Machine, s: Machine, k: nat)
    requires AskedAt(request, start, m, k)
    requires m.asked == s.asked && m.records <= s.records && m.views <= s.views
    ensures AskedAt(request, start, s, k)
  {
    assert s.records[..k] == m.records[..k];
  }

  lemma {:induction false} CommittedIsSettled(world: World, request: BrowserLoopRequest, start: Origin, m: Machine,
                                              s: Machine, record: BrowserLoopIteration, next: BrowserObservation)
    requires Faithful(world, request, start, m) && m.seen == start.seen + m.records
    requires |m.asked| == |start.asked| + |m.records| + 1
    requires Explains(world, request, m.wire.sent, m.cuts[|m.records|], |m.wire.sent|, |start.asked| + |m.records|,
                      m.View(), m.records, record, next)
    requires Grown(m, s, record, next) && world.observer(|m.seen|, record).Ok?
    ensures Settled(world, request, start, s)
  {
    var n := |m.records|;
    forall k | 0 <= k < n + 1 ensures ExplainedAt(world, request, start, s, k) {
      if k < n {
        ExplanationsLast(world, request, start, m, s, k);
      } else {
        NewRecordExplained(world, request, start, m, s, record, next);
      }
    }
    forall k | 0 <= k < |s.asked| - |start.asked| ensures AskedAt(request, start, s, k) {
      QuestionsLast(request, start, m, s, k);
    }
    forall k | 0 <= k < n + 1 ensures ApprovedAt(world, start, s, k) {
      if k < n {
        assert ApprovedAt(world, start, m, k);
      }
    }
    assert s.seen == start.seen + s.records;
  }

  lemma {:induction false} RefusalIsExplained(world: World, request: BrowserLoopRequest, start: Origin, m: Machine,
                                              record: BrowserLoopIteration, next: BrowserObservation,
                                              error: BrowserAutomationError)
    requires Faithful(world, request, start, m) && m.seen == start.seen + m.records
    requires |m.asked| == |start.asked| + |m.records| + 1
    requires Explains(world, request, m.wire.sent, m.cuts[|m.records|], |m.wire.sent|, |start.asked| + |m.records|,
                      m.View(), m.records, record, next)
    requires world.observer(|m.seen|, record) == Err(error)
    ensures var s := m.(seen := m.seen + [record]);
            && Faithful(world, request, start, s) && RefusedRecord(world, request, start, s)
            && ObserverFailure(world, s.seen, error)
  {
    var s := m.(seen := m.seen + [record]);
    forall k | 0 <= k < |m.records| ensures ExplainedAt(world, request, start, s, k) {
      ExplanationsLast(world, request, start, m, s, k);
    }
    forall k | 0 <= k < |s.asked| - |start.asked| ensures AskedAt(request, start, s, k) {
      QuestionsLast(request, start, m, s, k);
    }
    forall k | 0 <= k < |m.records| ensures ApprovedAt(world, start, s, k) {
      assert ApprovedAt(world, start, m, k);
    }
    assert s.seen[|s.seen| - 1] == record;
    assert RefusedLeadingTo(world, request, start, s, next);
  }

  /** Committing an explained record keeps the trail faithful, and a refusal is accounted for. */
  lemma {:induction false} CommitStaysFaithful(world: World, request: BrowserLoopRequest, start: Origin, m: Machine,
                                               record: BrowserLoopIteration, next: BrowserObservation)
    requires Faithful(world, request, start, m) && m.seen == start.seen + m.records
    requires |m.asked| == |start.asked| + |m.records| + 1
    requires Explains(world, request, m.wire.sent, m.cuts[|m.records|], |m.wire.sent|, |start.asked| + |m.records|,
                      m.View(), m.records, record, next)
    ensures var o := Commit(world, m, record, next);
            match o
            case Running(s) => Grown(m, s, record, next) && Settled(world, request, start, s)
            case Failed(s, error) => FailureExplained(world, request, start, s, error)
            case Stopped(_, _, _) | Unstarted(_, _) => false
  {
    match world.observer(|m.seen|, record)
    case Ok(_) => CommittedIsSettled(world, request, start, m, Commit(world, m, record, next).state, record, next);
    case Err(error) => RefusalIsExplained(world, request, start, m, record, next, error);
  }

  // --- every turn, every run ---

  /** What holds of the result of a turn taken after `n` records. */
  ghost predicate TurnResult(world: World, request: BrowserLoopRequest, start: Origin, n: nat, o: Outcome) {
    if o.Running? then
      Settled(world, request, start, o.state) && |o.state.records| == n + 1 && |o.state.asked| == |start.asked| + n + 1
    else Ended(world, request, start, o)
  }

  /** What holds when the loop is left: nothing is unexplained, and the way out has its cause. */
  ghost predicate Ended(world: World, request: BrowserLoopRequest, start: Origin, o: Outcome) {
    match o
    case Running(_) | Unstarted(_, _) => false
    case Stopped(s, reason, output) =>
      Settled(world, request, start, s) && StopExplained(world, request, start, s, reason, output)
    case Failed(s, error) => FailureExplained(world, request, start, s, error)
  }

  /** The output goes with the reason, and a decision to stop is the planner's last answer. */
  predicate StopExplained(world: World, request: BrowserLoopRequest, start: Origin, s: Machine, reason: StopReason,
                          output: Json) {
    && |s.asked| == |start.asked| + |s.records| + (if reason.PlannerCompleted? || reason.PlannerBlocked? then 1 else 0)
    && match reason
       case PlannerCompleted => Decision(world, request, start, s) == Ok(DecideComplete(output))
       case PlannerBlocked(why) =>
         Decision(world, request, start, s) == Ok(DecideBlocked(why)) && output == BlockedOutput(reason)
       case _ => output == BlockedOutput(reason)
  }

  /** The planner's answer to the question asked after all records. */
  function Decision(world: World, request: BrowserLoopRequest, start: Origin, s: Machine)
    : BrowserResult<BrowserLoopDecision>
  {
    world.planner(|start.asked| + |s.records|, PlannerCall(request, s.View(), s.records))
  }

  lemma {:induction false} TurnIsFaithful(world: World, request: BrowserLoopRequest, start: Origin, m: Machine)
    requires Settled(world, request, start, m) && |m.asked| == |start.asked| + |m.records|
    ensures TurnResult(world, request, start, |m.records|, Turn(world, request, m, |m.records| + 1))
  {
    var call := Ask(request, m);
    var m' := m.(asked := m.asked + [call]);
    ProbeStaysFaithful(world, request, start, m, m');
    match world.planner(|m.asked|, call)
    case Err(error) =>
      if world.recoverable(error) {
        ResnapshotIsFaithful(world, request, start, m, m', PlannerErrorNote(error), Some(RetryHint(error)),
                             StaleRefRejected);
      }
    case Ok(DecideComplete(_)) =>
    case Ok(DecideBlocked(_)) =>
    case Ok(DecideAct(action, expected)) =>
      match NormalizedAction(action, request.targetId)
      case Err(error) =>
      case Ok(action) => ActTurnIsFaithful(world, request, start, m, m', action, expected);
  }

  lemma {:induction false} SnapshotFacts(world: World, wire: Wire, target: string)
    ensures var (wire', view) := TakeSnapshot(world, wire, target);
            && wire.sent <= wire'.sent && |wire'.sent| == |wire.sent| + 1
            && SnapshotRequested(target, wire'.sent, |wire.sent|)
            && (view.Ok? ==> SnapshotShows(world, target, wire'.sent, |wire.sent|, view.value))
            && (view.Err? ==> WireFailure(world, target, wire'.sent, view.error))
  {
    var (wire', response) := Exchange(world.transport, wire, Snapshot, SnapshotParams(target));
    var i := |wire.sent|;
    assert wire'.sent[i] == BrowserRequest(RequestId(wire.nextId), Snapshot, SnapshotParams(target));
    if response.Ok? {
      assert Accepted(world.transport, wire'.sent, i, response.value);
    }
  }

  /** Sending one more request that fails ends the run with a wire failure. */
  lemma {:induction false} WireFailureIsExplained(world: World, request: BrowserLoopRequest, start: Origin, m: Machine,
                                                  m': Machine, error: BrowserAutomationError)
    requires Settled(world, request, start, m) && |m.asked| == |start.asked| + |m.records|
    requires Probe(request, m, m')
    requires Attempted(world, request.targetId, m'.wire.sent, |m.wire.sent|, world.planner(|m.asked|, Ask(request, m)))
    requires WireFailure(world, request.targetId, m'.wire.sent, error)
    ensures FailureExplained(world, request, start, m', error)
  {
    ProbeStaysFaithful(world, request, start, m, m');
  }

  lemma {:induction false} ResnapshotIsFaithful(world: World, request: BrowserLoopRequest, start: Origin, m: Machine,
                                                m': Machine, action: Json, expected: Option<string>,
                                                status: IterationStatus)
    requires Settled(world, request, start, m) && |m.asked| == |start.asked| + |m.records|
    requires Probe(request, m, m')
    requires var decision := world.planner(|m.asked|, Ask(request, m));
             if status.StaleRefRejected? then
               && m'.wire == m.wire && decision.Err? && world.recoverable(decision.error)
               && action == PlannerErrorNote(decision.error) && expected == Some(RetryHint(decision.error))
             else
               && status.StaleRefRecovered? && |m'.wire.sent| == |m.wire.sent| + 1
               && ActSent(world, request.targetId, m'.wire.sent, |m.wire.sent|, decision, action, expected)
               && world.transport(|m.wire.sent|, m'.wire.sent[|m.wire.sent|]).response.Error?
               && StaleRefError(world.transport(|m.wire.sent|, m'.wire.sent[|m.wire.sent|]).response.error)
    ensures TurnResult(world, request, start, |m.records|,
                       Resnapshot(world, request.targetId, m', |m.records| + 1, action, expected, status))
  {
    var (wire, view) := TakeSnapshot(world, m'.wire, request.targetId);
    SnapshotFacts(world, m'.wire, request.targetId);
    var m'' := m'.(wire := wire);
    match view
    case Err(error) => WireFailureIsExplained(world, request, start, m, m'', error);
    case Ok(next) =>
      var record := MakeRecord(|m.records| + 1, m.View(), action, expected, next, status);
      if status.StaleRefRecovered? {
        assert wire.sent[|m.wire.sent|] == m'.wire.sent[|m.wire.sent|];
      }
      CommitExplained(world, request, start, m, m'', record, next);
  }

  lemma {:induction false} CommitExplained(world: World, request: BrowserLoopRequest, start: Origin, m: Machine,
                                           m': Machine, record: BrowserLoopIteration, next: BrowserObservation)
    requires Settled(world, request, start, m) && |m.asked| == |start.asked| + |m.records|
    requires Probe(request, m, m')
    requires Explains(world, request, m'.wire.sent, |m.wire.sent|, |m'.wire.sent|, |m.asked|,
                      m.View(), m.records, record, next)
    ensures TurnResult(world, request, start, |m.records|, Commit(world, m', record, next))
    ensures var o := Commit(world, m', record, next); o.Running? ==> o.state.stalled == m'.stalled
  {
    ProbeStaysFaithful(world, request, start, m, m');
    CommitStaysFaithful(world, request, start, m', record, next);
  }

  lemma {:induction false} ActTurnIsFaithful(world: World, request: BrowserLoopRequest, start: Origin, m: Machine,
                                             m': Machine, action: Json, expected: Option<string>)
    requires Settled(world, request, start, m) && |m.asked| == |start.asked| + |m.records|
    requires Probe(request, m, m') && m'.wire == m.wire
    requires var decision := world.planner(|m.asked|, Ask(request, m));
             && decision.Ok? && decision.value.DecideAct? && decision.value.expectedObservation == expected
             && NormalizedAction(decision.value.action, request.targetId) == Ok(action)
    ensures TurnResult(world, request, start, |m.records|,
                       ActTurn(world, request.targetId, m', |m.records| + 1, action, expected))
  {
    var (wire, response) := Exchange(world.transport, m'.wire, Act, action);
    var m'' := m'.(wire := wire);
    var i := |m.wire.sent|;
    assert wire.sent[i] == BrowserRequest(RequestId(m.wire.nextId), Act, action);
    match response
    case Err(error) => WireFailureIsExplained(world, request, start, m, m'', error);
    case Ok(response) =>
      assert Accepted(world.transport, wire.sent, i, response);
      match response
      case Success(_, false, _) =>
        WireFailureIsExplained(world, request, start, m, m'', InvalidResponse("browser act response has ok=false"));
      case Success(_, true, result) => ActionSuccessIsFaithful(world, request, start, m, m'', action, expected, result);
      case Error(_, _, error) =>
        if StaleRefError(error) {
          ResnapshotIsFaithful(world, request, start, m, m'', action, expected, StaleRefRecovered);
        } else if RecoverableSidecarActionError(error) {
          ActionErrorIsFaithful(world, request, start, m, m'', action, expected, error);
        } else {
          WireFailureIsExplained(world, request, start, m, m'', SidecarFailure(error));
        }
  }

  lemma {:induction false} ActionErrorExplained(world: World, request: BrowserLoopRequest, wire: Wire, wire': Wire,
                                                call: PlannerCall, question: nat, action: Json,
                                                expected: Option<string>, error: BrowserSidecarError,
                                                next: BrowserObservation)
    requires call.request == request
    requires wire.sent <= wire'.sent && |wire'.sent| == |wire.sent| + 2
    requires ActSent(world, request.targetId, wire'.sent, |wire.sent|, world.planner(question, call), action, expected)
    requires var response := world.transport(|wire.sent|, wire'.sent[|wire.sent|]).response;
             response.Error? && response.error == error && !StaleRefError(error) && RecoverableSidecarActionError(error)
    requires SnapshotShows(world, request.targetId, wire'.sent, |wire.sent| + 1, next)
    ensures Explains(world, request, wire'.sent, |wire.sent|, |wire'.sent|, question, call.observation, call.iterations,
                     MakeRecord(|call.iterations| + 1, call.observation, ActionErrorNote(error, action), expected, next,
                                ActionErrorRecovered), next)
  {
    var record := MakeRecord(|call.iterations| + 1, call.observation, ActionErrorNote(error, action), expected, next,
                             ActionErrorRecovered);
    assert ActionOf(record) == Some(action);
  }

  lemma {:induction false} ActionErrorIsFaithful(world: World, request: BrowserLoopRequest, start: Origin, m: Machine,
                                                 m': Machine, action: Json, expected: Option<string>,
                                                 error: BrowserSidecarError)
    requires Settled(world, request, start, m) && |m.asked| == |start.asked| + |m.records|
    requires Probe(request, m, m') && |m'.wire.sent| == |m.wire.sent| + 1
    requires ActSent(world, request.targetId, m'.wire.sent, |m.wire.sent|,
                     world.planner(|m.asked|, Ask(request, m)), action, expected)
    requires var response := world.transport(|m.wire.sent|, m'.wire.sent[|m.wire.sent|]).response;
             response.Error? && response.error == error && !StaleRefError(error) && RecoverableSidecarActionError(error)
    ensures TurnResult(world, request, start, |m.records|,
                       AfterActionError(world, request.targetId, m', |m.records| + 1, action, expected, error))
  {
    var (wire, view) := TakeSnapshot(world, m'.wire, request.targetId);
    SnapshotFacts(world, m'.wire, request.targetId);
    var m'' := m'.(wire := wire);
    match view
    case Err(error) => WireFailureIsExplained(world, request, start, m, m'', error);
    case Ok(next) =>
      var record := MakeRecord(|m.records| + 1, m.View(), ActionErrorNote(error, action), expected, next,
                               ActionErrorRecovered);
      assert wire.sent[|m.wire.sent|] == m'.wire.sent[|m.wire.sent|];
      ActionErrorExplained(world, request, m.wire, wire, Ask(request, m), |m.asked|, action, expected, error, next);
      CommitExplained(world, request, start, m, CountStall(m'', next), record, next);
  }

  lemma {:induction false} ActionSuccessExplained(world: World, request: BrowserLoopRequest, wire: Wire, wire': Wire,
                                                  call: PlannerCall, question: nat, action: Json,
                                                  expected: Option<string>, result: Json, next: BrowserObservation)
    requires call.request == request
    requires wire.sent <= wire'.sent && |wire.sent| < |wire'.sent|
    requires ActSent(world, request.targetId, wire'.sent, |wire.sent|, world.planner(question, call), action, expected)
    requires var response := world.transport(|wire.sent|, wire'.sent[|wire.sent|]).response;
             response.Success? && response.ok && response.result == result
    requires if result.GetString("snapshot").Some? then
               |wire'.sent| == |wire.sent| + 1 && world.observe(result, request.targetId) == Ok(next)
             else
               && |wire'.sent| == |wire.sent| + 2
               && SnapshotShows(world, request.targetId, wire'.sent, |wire.sent| + 1, next)
    ensures Explains(world, request, wire'.sent, |wire.sent|, |wire'.sent|, question, call.observation, call.iterations,
                     MakeRecord(|call.iterations| + 1, call.observation, action, expected, next,
                                if Progressed(call.observation, next) then Observed else NoProgress), next)
  {
  }

  lemma {:induction false} ActionSuccessCommitted(world: World, request: BrowserLoopRequest, start: Origin, m: Machine,
                                                  m': Machine, action: Json, expected: Option<string>, result: Json,
                                                  next: BrowserObservation)
    requires Settled(world, request, start, m) && |m.asked| == |start.asked| + |m.records|
    requires Probe(request, m, m') && |m'.wire.sent| > |m.wire.sent|
    requires ActSent(world, request.targetId, m'.wire.sent, |m.wire.sent|,
                     world.planner(|m.asked|, Ask(request, m)), action, expected)
    requires var response := world.transport(|m.wire.sent|, m'.wire.sent[|m.wire.sent|]).response;
             response.Success? && response.ok && response.result == result
    requires if result.GetString("snapshot").Some? then
               |m'.wire.sent| == |m.wire.sent| + 1 && world.observe(result, request.targetId) == Ok(next)
             else
               && |m'.wire.sent| == |m.wire.sent| + 2
               && SnapshotShows(world, request.targetId, m'.wire.sent, |m.wire.sent| + 1, next)
    ensures TurnResult(world, request, start, |m.records|,
                       StopIfStalled(Counted(world, m', |m.records| + 1, action, expected, next,
                                             if Progressed(m.View(), next) then Observed else NoProgress),
                                     RepeatedNoProgress))
  {
    var record := MakeRecord(|m.records| + 1, m.View(), action, expected, next,
                             if Progressed(m.View(), next) then Observed else NoProgress);
    ActionSuccessExplained(world, request, m.wire, m'.wire, Ask(request, m), |m.asked|, action, expected, result, next);
    CommitExplained(world, request, start, m, CountStall(m', next), record, next);
  }

  lemma {:induction false} ActionSuccessIsFaithful(world: World, request: BrowserLoopRequest, start: Origin, m: Machine,
                                                   m': Machine, action: Json, expected: Option<string>, result: Json)
    requires Settled(world, request, start, m) && |m.asked| == |start.asked| + |m.records|
    requires Probe(request, m, m') && |m'.wire.sent| == |m.wire.sent| + 1
    requires ActSent(world, request.targetId, m'.wire.sent, |m.wire.sent|,
                     world.planner(|m.asked|, Ask(request, m)), action, expected)
    requires var response := world.transport(|m.wire.sent|, m'.wire.sent[|m.wire.sent|]).response;
             response.Success? && response.ok && response.result == result
    ensures TurnResult(world, request, start, |m.records|,
                       AfterActionSuccess(world, request.targetId, m', |m.records| + 1, action, expected, result))
  {
    if result.GetString("snapshot").Some? {
      match world.observe(result, request.targetId)
      case Err(error) => WireFailureIsExplained(world, request, start, m, m', error);
      case Ok(next) => ActionSuccessCommitted(world, request, start, m, m', action, expected, result, next);
    } else {
      SnapshotFacts(world, m'.wire, request.targetId);
      var (wire, view) := TakeSnapshot(world, m'.wire, request.targetId);
      var m'' := m'.(wire := wire);
      assert wire.sent[|m.wire.sent|] == m'.wire.sent[|m.wire.sent|];
      match view
      case Err(error) => WireFailureIsExplained(world, request, start, m, m'', error);
      case Ok(next) => ActionSuccessCommitted(world, request, start, m, m'', action, expected, result, next);
    }
  }
}
