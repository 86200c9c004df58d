/** The consistency verdict on one turn: task, runs, plan and message checked against the reduced events. */
module TurnAudit {
  import opened Wrappers
  import opened Json
  import opened Selection
  import opened Text
  import opened TurnReducer

  datatype TaskStatus = TaskCompleted | TaskFailed | TaskCancelled | TaskExpired | TaskOther(name: string)
  datatype RunStatus = RunRunning | RunCompleted | RunFailed | RunAborted | RunOther(name: string)
  datatype DeliveryState = DeliveryFailed | DeliveryOther(name: string)

  datatype AgentRun = AgentRun(id: string, status: RunStatus)
  datatype AssistantMessage = AssistantMessage(id: string, text: Option<string>, delivery: DeliveryState)
  datatype RuntimePlan = RuntimePlan(open: bool, planJson: Json)

  /** What the audit can report, beside the reducer's own contradictions. */
  datatype Finding =
    | Reduced(contradiction: Contradiction)
    | MissingTask
    | TerminalTaskWithoutTerminalEvent(task: TaskStatus, reduced: ReducedStatus)
    | TaskReducerMismatch(task: TaskStatus, reduced: ReducedStatus)
    | RunStillRunning(run: string)
    | RunStatusMismatch(task: TaskStatus, run: string, status: RunStatus)
    | ActiveRuntimePlan(task: TaskStatus)
    | FailedMessageEmpty(message: string)
    | FailedMessageDelivery(message: string, delivery: DeliveryState)

  // --- plan steps ---

  predicate RunnableStatus(status: string) {
    status == "todo" || status == "doing" || status == "in_progress"
  }

  /** The steps of a plan; nothing if the loop over them raises. Only objects count as steps; the characters of a
      string and the keys of an object are looped over and dropped. */
  function RuntimePlanSteps(planJson: Json): Option<seq<Json>> {
    match planJson
    case JArray(items) => Some(OnlyObjects(items))
    case JObject(_) =>
      (match planJson.Get("steps")
       case None => Some([])
       case Some(JArray(items)) => Some(OnlyObjects(items))
       case Some(JString(_)) => Some([])
       case Some(JObject(_)) => Some([])
       case Some(_) => None)
    case _ => Some([])
  }

  predicate IsObject(item: Json) {
    item.JObject?
  }

  /** The objects among the items, in order and however often they occur. */
  function OnlyObjects(items: seq<Json>): (r: seq<Json>)
    ensures Selected(r, items, IsObject)
  {
    FilterSelects(items, IsObject);
    Filter(items, IsObject)
  }

  /** A step is runnable by its status; a list or object as status cannot be looked up and raises. */
  predicate RunnableStep(step: Json) {
    step.GetString("status").Some? && RunnableStatus(step.GetString("status").value)
  }

  predicate UnhashableStep(step: Json) {
    step.Get("status").Some? && (step.Get("status").value.JArray? || step.Get("status").value.JObject?)
  }

  /** Looking over the steps of a plan raises if they cannot be looped over, or if one has a status that
      cannot be looked up. */
  predicate PlanRaises(planJson: Json) {
    var steps := RuntimePlanSteps(planJson);
    steps.None? || exists step :: step in steps.value && UnhashableStep(step)
  }

  /** The runnable steps of an open plan, in order; nothing if looking at them raises. */
  function ActiveSteps(plan: Option<RuntimePlan>): (r: Option<seq<Json>>)
    ensures r.None? <==> plan.Some? && plan.value.open && PlanRaises(plan.value.planJson)
    ensures plan.None? || !plan.value.open ==> r == Some([])
    ensures r.Some? && plan.Some? && plan.value.open ==>
              Selected(r.value, RuntimePlanSteps(plan.value.planJson).value, RunnableStep)
  {
    if plan.None? || !plan.value.open then Some([])
    else
      match RuntimePlanSteps(plan.value.planJson)
      case None => None
      case Some(steps) =>
        FilterSelects(steps, RunnableStep);
        if exists step :: step in steps && UnhashableStep(step) then None else Some(Filter(steps, RunnableStep))
  }

  // --- which steps of a stored plan are active ---

  /** The plan holds this list of items: it is the list, or an object with the list under "steps". */
  predicate ListsItems(planJson: Json, items: seq<Json>) {
    || planJson == JArray(items)
    || (planJson.JObject? && "steps" in planJson.fields && planJson.fields["steps"] == JArray(items))
  }

  /** An object whose status says that it can still be worked on. */
  predicate CanRun(step: Json) {
    && step.JObject? && "status" in step.fields
    && step.fields["status"] in {JString("todo"), JString("doing"), JString("in_progress")}
  }

  /** An object whose status is a list or an object. */
  predicate HasOddStatus(step: Json) {
    && step.JObject? && "status" in step.fields
    && (step.fields["status"].JArray? || step.fields["status"].JObject?)
  }

  lemma {:induction false} StepsAreTheObjects(planJson: Json, items: seq<Json>, step: Json)
    requires ListsItems(planJson, items)
    ensures RuntimePlanSteps(planJson) == Some(OnlyObjects(items))
    ensures step in OnlyObjects(items) <==> step in items && step.JObject?
  {
    SelectedElements(OnlyObjects(items), items, IsObject, step);
  }

  lemma {:induction false} LookingOverRaises(plan: RuntimePlan, items: seq<Json>)
    requires plan.open && ListsItems(plan.planJson, items)
    ensures ActiveSteps(Some(plan)).None? <==> exists step :: step in items && HasOddStatus(step)
  {
    var steps := OnlyObjects(items);
    assert RuntimePlanSteps(plan.planJson) == Some(steps);
    forall step ensures step in steps && UnhashableStep(step) <==> step in items && HasOddStatus(step) {
      StepsAreTheObjects(plan.planJson, items, step);
    }
  }

  /** The active steps of an open plan with a list of items are the items that can run; looking them over raises
      exactly if an item has an odd status. */
  lemma {:induction false} ActiveStepsCanRun(plan: RuntimePlan, items: seq<Json>, step: Json)
    requires plan.open && ListsItems(plan.planJson, items)
    ensures ActiveSteps(Some(plan)).None? <==> exists step :: step in items && HasOddStatus(step)
    ensures ActiveSteps(Some(plan)).Some? ==> (step in ActiveSteps(Some(plan)).value <==> step in items && CanRun(step))
  {
    LookingOverRaises(plan, items);
    if ActiveSteps(Some(plan)).Some? {
      StepsAreTheObjects(plan.planJson, items, step);
      SelectedElements(ActiveSteps(Some(plan)).value, OnlyObjects(items), RunnableStep, step);
    }
  }

  /** The plan is open and lists a step that can run. */
  ghost predicate ListsRunnable(plan: Option<RuntimePlan>) {
    && plan.Some? && plan.value.open
    && exists items, step :: ListsItems(plan.value.planJson, items) && step in items && CanRun(step)
  }

  lemma {:induction false} RunnableStepsStay(plan: Option<RuntimePlan>)
    ensures ListsRunnable(plan) ==> ActiveSteps(plan) != Some([])
  {
    if ListsRunnable(plan) {
      var items, step :| ListsItems(plan.value.planJson, items) && step in items && CanRun(step);
      ActiveStepsCanRun(plan.value, items, step);
    }
  }

  /** A plan without a list of items has no active steps; only a number, a boolean or null under "steps" raises. */
  lemma {:induction false} NoListNoSteps(plan: RuntimePlan)
    requires plan.open && !plan.planJson.JArray?
    requires plan.planJson.JObject? && "steps" in plan.planJson.fields ==> !plan.planJson.fields["steps"].JArray?
    ensures ActiveSteps(Some(plan))
            == if && plan.planJson.JObject? && "steps" in plan.planJson.fields
                  && !plan.planJson.fields["steps"].JString? && !plan.planJson.fields["steps"].JObject? then None
               else Some([])
  {
  }

  // --- the single checks ---

  predicate TerminalTask(status: TaskStatus) {
    !status.TaskOther?
  }

  predicate ReducedTerminal(status: ReducedStatus) {
    status.StatusCompleted? || status.StatusFailed? || status.StatusCancelled?
  }

  /** Task and reducer name the same terminal status; an expired task has no counterpart. */
  predicate SameStatus(task: TaskStatus, reduced: ReducedStatus) {
    match task
    case TaskCompleted => reduced.StatusCompleted?
    case TaskFailed => reduced.StatusFailed?
    case TaskCancelled => reduced.StatusCancelled?
    case _ => false
  }

  function ExpectedRunStatuses(task: TaskStatus): set<RunStatus> {
    match task
    case TaskCompleted => {RunCompleted}
    case TaskFailed => {RunFailed}
    case TaskCancelled => {RunAborted}
    case TaskExpired => {RunAborted}
    case TaskOther(_) => {}
  }

  function RunFindings(task: TaskStatus, run: AgentRun): seq<Finding> {
    if run.status.RunRunning? then [RunStillRunning(run.id)]
    else if ExpectedRunStatuses(task) != {} && run.status !in ExpectedRunStatuses(task) then
      [RunStatusMismatch(task, run.id, run.status)]
    else []
  }

  function AllRunFindings(task: TaskStatus, runs: seq<AgentRun>): seq<Finding> {
    if runs == [] then [] else AllRunFindings(task, runs[..|runs| - 1]) + RunFindings(task, runs[|runs| - 1])
  }

  function ReducedFindings(cs: seq<Contradiction>): (r: seq<Finding>)
    ensures |r| == |cs|
  {
    seq(|cs|, i requires 0 <= i < |cs| => Reduced(cs[i]))
  }

  predicate BlankText(text: Option<string>) {
    text.None? || Blank(text.value)
  }

  // --- the verdict, declaratively ---

  predicate HasEnded(task: TaskStatus) {
    task in {TaskCompleted, TaskFailed, TaskCancelled, TaskExpired}
  }

  /** The events name the same end, or still wait for someone; an expired task has no end of its own in the events. */
  predicate EventsAgree(task: TaskStatus, reduced: ReducedStatus) {
    || reduced in {WaitingApproval, WaitingUser}
    || (task == TaskCompleted && reduced == StatusCompleted)
    || (task == TaskFailed && reduced == StatusFailed)
    || (task == TaskCancelled && reduced == StatusCancelled)
  }

  predicate RunAgrees(task: TaskStatus, run: RunStatus) {
    || (task == TaskCompleted && run == RunCompleted)
    || (task == TaskFailed && run == RunFailed)
    || (task == TaskCancelled && run == RunAborted)
    || (task == TaskExpired && run == RunAborted)
  }

  predicate Visible(text: Option<string>) {
    text.Some? && exists i :: 0 <= i < |text.value| && !IsSpace(text.value[i])
  }

  /** A turn is consistent if it has a task, its events do not contradict each other, and a terminal task is
      confirmed by (or still waited for in) the events, by every run and by the plan, and a failed one by its
      message. */
  predicate Consistent(task: Option<TaskStatus>, r: Reduction, runs: seq<AgentRun>, message: Option<AssistantMessage>,
                       activeSteps: seq<Json>) {
    && task.Some?
    && r.contradictions == []
    && (HasEnded(task.value) ==>
          && EventsAgree(task.value, r.status)
          && (forall i :: 0 <= i < |runs| ==> RunAgrees(task.value, runs[i].status))
          && activeSteps == [])
    && (task.value == TaskFailed && message.Some? ==>
          Visible(message.value.text) && message.value.delivery == DeliveryFailed)
  }

  lemma {:induction false} RunsConfirm(task: TaskStatus, runs: seq<AgentRun>)
    requires TerminalTask(task)
    ensures AllRunFindings(task, runs) == []
            <==> forall i :: 0 <= i < |runs| ==> RunAgrees(task, runs[i].status)
  {
    if runs != [] {
      var init, last := runs[..|runs| - 1], runs[|runs| - 1];
      RunsConfirm(task, init);
      assert RunFindings(task, last) == [] <==> RunAgrees(task, last.status);
      assert forall i :: 0 <= i < |init| ==> init[i] == runs[i];
    }
  }

  function StatusFindings(task: TaskStatus, reduced: ReducedStatus): seq<Finding> {
    if reduced.StatusRunning? || reduced.StatusEmpty? then [TerminalTaskWithoutTerminalEvent(task, reduced)]
    else if ReducedTerminal(reduced) && !SameStatus(task, reduced) then [TaskReducerMismatch(task, reduced)]
    else []
  }

  function MessageFindings(message: AssistantMessage): seq<Finding> {
    (if BlankText(message.text) then [FailedMessageEmpty(message.id)] else [])
    + (if message.delivery != DeliveryFailed then [FailedMessageDelivery(message.id, message.delivery)] else [])
  }

  /** The findings on a task that has a row, in the order of the checks. */
  function TaskFindings(task: TaskStatus, r: Reduction, runs: seq<AgentRun>, message: Option<AssistantMessage>,
                        activeSteps: seq<Json>): seq<Finding> {
    (if TerminalTask(task) then
       StatusFindings(task, r.status) + AllRunFindings(task, runs)
       + (if activeSteps != [] then [ActiveRuntimePlan(task)] else [])
     else [])
    + (if task == TaskFailed && message.Some? then MessageFindings(message.value) else [])
  }

  function Findings(task: Option<TaskStatus>, r: Reduction, runs: seq<AgentRun>, message: Option<AssistantMessage>,
                    activeSteps: seq<Json>): seq<Finding> {
    ReducedFindings(r.contradictions)
    + (match task
       case None => [MissingTask]
       case Some(task) => TaskFindings(task, r, runs, message, activeSteps))
  }

  /** Nothing is found exactly when the turn is consistent. */
  lemma {:induction false} NothingFoundMeansConsistent(task: Option<TaskStatus>, r: Reduction, runs: seq<AgentRun>,
                                                       message: Option<AssistantMessage>, activeSteps: seq<Json>)
    ensures Findings(task, r, runs, message, activeSteps) == [] <==> Consistent(task, r, runs, message, activeSteps)
  {
    if task.Some? && TerminalTask(task.value) {
      RunsConfirm(task.value, runs);
      assert StatusFindings(task.value, r.status) == [] <==> EventsAgree(task.value, r.status);
    }
  }

  /** When a finding is reported. */
  ghost predicate Caused(f: Finding, task: Option<TaskStatus>, r: Reduction, runs: seq<AgentRun>,
                         message: Option<AssistantMessage>, activeSteps: seq<Json>) {
    match f
    case Reduced(c) => c in r.contradictions
    case MissingTask => task.None?
    case TerminalTaskWithoutTerminalEvent(t, status) =>
      task == Some(t) && HasEnded(t) && status == r.status && status in {StatusRunning, StatusEmpty}
    case TaskReducerMismatch(t, status) =>
      && task == Some(t) && HasEnded(t) && status == r.status
      && status in {StatusCompleted, StatusFailed, StatusCancelled} && !EventsAgree(t, status)
    case RunStillRunning(id) =>
      task.Some? && HasEnded(task.value) && AgentRun(id, RunRunning) in runs
    case RunStatusMismatch(t, id, status) =>
      task == Some(t) && HasEnded(t) && status != RunRunning && !RunAgrees(t, status) && AgentRun(id, status) in runs
    case ActiveRuntimePlan(t) => task == Some(t) && HasEnded(t) && activeSteps != []
    case FailedMessageEmpty(id) =>
      task == Some(TaskFailed) && message.Some? && message.value.id == id && !Visible(message.value.text)
    case FailedMessageDelivery(id, delivery) =>
      && task == Some(TaskFailed) && message.Some? && message.value.id == id
      && message.value.delivery == delivery && delivery != DeliveryFailed
  }

  predicate RunCaused(f: Finding, task: TaskStatus, run: AgentRun) {
    match f
    case RunStillRunning(id) => run == AgentRun(id, RunRunning)
    case RunStatusMismatch(t, id, status) =>
      t == task && run == AgentRun(id, status) && status != RunRunning && !RunAgrees(task, status)
    case _ => false
  }

  lemma {:induction false} OneRunCaused(task: TaskStatus, run: AgentRun, f: Finding)
    requires HasEnded(task)
    ensures f in RunFindings(task, run) <==> RunCaused(f, task, run)
  {
  }

  lemma {:induction false} RunFindingsCaused(task: TaskStatus, runs: seq<AgentRun>, f: Finding)
    requires HasEnded(task)
    ensures f in AllRunFindings(task, runs) <==> exists run :: run in runs && RunCaused(f, task, run)
  {
    if runs != [] {
      var init, last := runs[..|runs| - 1], runs[|runs| - 1];
      RunFindingsCaused(task, init, f);
      OneRunCaused(task, last, f);
      assert runs == init + [last];
      assert forall run :: run in runs <==> run in init || run == last;
    }
  }

  lemma {:induction false} StatusFindingsCaused(task: TaskStatus, reduced: ReducedStatus, f: Finding)
    requires HasEnded(task)
    ensures f in StatusFindings(task, reduced)
            <==> match f
                 case TerminalTaskWithoutTerminalEvent(t, status) =>
                   t == task && status == reduced && status in {StatusRunning, StatusEmpty}
                 case TaskReducerMismatch(t, status) =>
                   && t == task && status == reduced && !EventsAgree(t, status)
                   && status in {StatusCompleted, StatusFailed, StatusCancelled}
                 case _ => false
  {
  }

  lemma {:induction false} MessageFindingsCaused(message: AssistantMessage, f: Finding)
    ensures f in MessageFindings(message)
            <==> match f
                 case FailedMessageEmpty(id) => message.id == id && !Visible(message.text)
                 case FailedMessageDelivery(id, delivery) =>
                   message.id == id && message.delivery == delivery && delivery != DeliveryFailed
                 case _ => false
  {
  }

  lemma {:induction false} TaskFindingsCaused(task: TaskStatus, r: Reduction, runs: seq<AgentRun>,
                                              message: Option<AssistantMessage>, activeSteps: seq<Json>, f: Finding)
    ensures f in TaskFindings(task, r, runs, message, activeSteps)
            <==> !f.Reduced? && Caused(f, Some(task), r, runs, message, activeSteps)
  {
    if HasEnded(task) {
      StatusFindingsCaused(task, r.status, f);
      RunFindingsCaused(task, runs, f);
    }
    if message.Some? {
      MessageFindingsCaused(message.value, f);
    }
  }

  /** Each finding is reported exactly when its cause is there. */
  lemma {:induction false} EachFindingHasItsCause(task: Option<TaskStatus>, r: Reduction, runs: seq<AgentRun>,
                                                  message: Option<AssistantMessage>, activeSteps: seq<Json>, f: Finding)
    ensures f in Findings(task, r, runs, message, activeSteps) <==> Caused(f, task, r, runs, message, activeSteps)
  {
    assert f.Reduced? ==> (f in ReducedFindings(r.contradictions) <==> f.contradiction in r.contradictions) by {
      if f.Reduced? && f.contradiction in r.contradictions {
        var i :| 0 <= i < |r.contradictions| && r.contradictions[i] == f.contradiction;
        assert ReducedFindings(r.contradictions)[i] == f;
      }
    }
    if task.Some? {
      TaskFindingsCaused(task.value, r, runs, message, activeSteps, f);
    }
  }

  datatype AuditResult = Raised | Audited(findings: seq<Finding>, ok: bool)

  /** Whether the audit raises: while reducing, or while looking at the plan of a terminal task. */
  predicate AuditRaises(task: Option<TaskStatus>, events: seq<TurnEvent>, plan: Option<RuntimePlan>) {
    Raises(Ordered(events)) || (task.Some? && TerminalTask(task.value) && ActiveSteps(plan).None?)
  }

  method CheckStatus(task: TaskStatus, reduced: ReducedStatus) returns (findings: seq<Finding>)
    ensures findings == StatusFindings(task, reduced)
  {
    findings := [];
    if reduced.StatusRunning? || reduced.StatusEmpty? {
      findings := findings + [TerminalTaskWithoutTerminalEvent(task, reduced)];
    }
    if ReducedTerminal(reduced) && !SameStatus(task, reduced) {
      findings := findings + [TaskReducerMismatch(task, reduced)];
    }
  }

  method CheckRuns(task: TaskStatus, runs: seq<AgentRun>) returns (findings: seq<Finding>)
    ensures findings == AllRunFindings(task, runs)
  {
    findings := [];
    var expected := ExpectedRunStatuses(task);
    for i := 0 to |runs|
      invariant findings == AllRunFindings(task, runs[..i])
    {
      assert runs[..i + 1][..i] == runs[..i];
      assert findings + [] == findings;
      if runs[i].status.RunRunning? {
        findings := findings + [RunStillRunning(runs[i].id)];
      } else if expected != {} && runs[i].status !in expected {
        findings := findings + [RunStatusMismatch(task, runs[i].id, runs[i].status)];
      }
    }
    assert runs[..|runs|] == runs;
  }

  method CheckMessage(message: AssistantMessage) returns (findings: seq<Finding>)
    ensures findings == MessageFindings(message)
  {
    findings := [];
    if BlankText(message.text) {
      findings := findings + [FailedMessageEmpty(message.id)];
    }
    if message.delivery != DeliveryFailed {
      findings := findings + [FailedMessageDelivery(message.id, message.delivery)];
    }
  }

  /** The checks on a task that has a row; nothing if looking at the plan raises. */
  method CheckTask(task: TaskStatus, r: Reduction, runs: seq<AgentRun>, message: Option<AssistantMessage>,
                   plan: Option<RuntimePlan>) returns (findings: Option<seq<Finding>>)
    ensures findings.None? <==> TerminalTask(task) && ActiveSteps(plan).None?
    ensures findings.Some? ==> findings.value == TaskFindings(task, r, runs, message, ActiveSteps(plan).GetOr([]))
  {
    var found: seq<Finding> := [];
    if TerminalTask(task) {
      var status := CheckStatus(task, r.status);
      var mismatched := CheckRuns(task, runs);
      found := status + mismatched;
      var steps := ActiveSteps(plan);
      if steps.None? {
        return None;
      }
      if steps.value != [] {
        found := found + [ActiveRuntimePlan(task)];
      }
    }
    if task == TaskFailed && message.Some? {
      var about := CheckMessage(message.value);
      found := found + about;
    }
    return Some(found);
  }

  /** The verdict part of the audit, on the rows it has read: `ok` exactly when the turn is consistent. */
  method AuditTurn(task: Option<TaskStatus>, events: seq<TurnEvent>, runs: seq<AgentRun>,
                   message: Option<AssistantMessage>, plan: Option<RuntimePlan>) returns (result: AuditResult)
    ensures result.Raised? <==> AuditRaises(task, events, plan)
    ensures result.Audited? ==>
              (result.ok <==> Consistent(task, Summary(Ordered(events)), runs, message, ActiveSteps(plan).GetOr([])))
    ensures result.Audited? ==>
              result.findings == Findings(task, Summary(Ordered(events)), runs, message, ActiveSteps(plan).GetOr([]))
    // in particular, a terminal task is never fine while its open plan lists a step that can run
    ensures task.Some? && HasEnded(task.value) && ListsRunnable(plan) ==> !(result.Audited? && result.ok)
  {
    var reduced := ReduceEvents(events);
    if reduced.None? {
      return Raised;
    }
    var r := reduced.value;
    NothingFoundMeansConsistent(task, r, runs, message, ActiveSteps(plan).GetOr([]));
    RunnableStepsStay(plan);
    var findings := ReducedFindings(r.contradictions);
    match task {
      case None => findings := findings + [MissingTask];
      case Some(task) =>
        var more := CheckTask(task, r, runs, message, plan);
        if more.None? {
          return Raised;
        }
        findings := findings + more.value;
    }
    return Audited(findings, findings == []);
  }

  /** A clean report on an expired task is only possible while the events still wait for someone. */
  lemma {:induction false} CleanExpiredIsWaiting(r: Reduction, runs: seq<AgentRun>, message: Option<AssistantMessage>,
                                                 steps: seq<Json>)
    requires Consistent(Some(TaskExpired), r, runs, message, steps)
    ensures r.status in {WaitingApproval, WaitingUser} && forall i :: 0 <= i < |runs| ==> runs[i].status == RunAborted
  {
    forall i | 0 <= i < |runs| ensures runs[i].status == RunAborted {
      assert RunAgrees(TaskExpired, runs[i].status);
    }
  }

  /** In a clean report on a task that ended, the events hold exactly one terminal event, the task's own, with no
      activity behind it, unless they hold none and wait. */
  lemma {:induction false} CleanEndHasOneTerminalEvent(task: TaskStatus, es: seq<TurnEvent>, runs: seq<AgentRun>,
                                                       message: Option<AssistantMessage>, steps: seq<Json>)
    requires TerminalTask(task) && Consistent(Some(task), Summary(es), runs, message, steps)
    ensures var t := FirstTerminal(es);
            if t == |es| then AfterLastSuspended(es) > 0
            else
              && (es[t].kind == if task == TaskCompleted then Done else if task == TaskFailed then Error else Cancelled)
              && task != TaskExpired
              && (forall i :: 0 <= i < |es| && i != t ==> !Terminal(es[i]))
              && (forall i :: t < i < |es| ==> !ActiveAfterTerminal(es[i]))
              && (task == TaskFailed ==> FailureText(es[t]).Some?)
  {
    var t := FirstTerminal(es);
    if t < |es| {
      NothingBehind(es);
    }
  }

  lemma {:induction false} NothingBehind(es: seq<TurnEvent>)
    requires FirstTerminal(es) < |es| && Summary(es).contradictions == []
    ensures var t := FirstTerminal(es);
            && (forall i :: t < i < |es| ==> !Terminal(es[i]) && !ActiveAfterTerminal(es[i]))
            && (es[t].kind.Error? ==> FailureText(es[t]).Some?)
  {
    var t := FirstTerminal(es);
    var late := es[t + 1..];
    ContradictionsAreCounted(es);
    forall i | t < i < |es| ensures !Terminal(es[i]) && !ActiveAfterTerminal(es[i]) {
      assert es[i] == late[i - t - 1];
      NoneLate(late, i - t - 1);
    }
  }

  lemma {:induction false} NoneLate(es: seq<TurnEvent>, i: nat)
    requires CountLate(es) == 0 && i < |es|
    ensures !Terminal(es[i]) && !ActiveAfterTerminal(es[i])
  {
    if i < |es| - 1 {
      NoneLate(es[..|es| - 1], i);
    }
  }

  /** A completed task whose events still wait for the user passes: the verdict does not ask for a terminal event. */
  lemma {:induction false} CompletedWhileWaitingPasses()
    ensures var es := [TurnEvent(1, 1, Suspended, NoPayload)];
            Summary(es).status == WaitingUser && Consistent(Some(TaskCompleted), Summary(es), [], None, [])
  {
    var es := [TurnEvent(1, 1, Suspended, NoPayload)];
    assert !Terminal(es[0]) && es[1..] == [];
    assert FirstTerminal(es) == 1;
  }
}
