/** The values of the browser automation protocol and of its agent loop. */
module BrowserTypes {
  import opened Wrappers
  import opened Json
  import opened Text

  const U32_LIMIT := 0x1_0000_0000
  const U64_LIMIT := 0x1_0000_0000_0000_0000

  type u32 = n: nat | n < U32_LIMIT
  type u64 = n: nat | n < U64_LIMIT

  datatype BrowserMethod = Open | Snapshot | Act

  datatype BrowserRequest = BrowserRequest(id: string, verb: BrowserMethod, params: Json)

  datatype BrowserSidecarError =
    BrowserSidecarError(code: string, message: string, retryable: bool, manualActionRequired: bool)

  datatype BrowserResponse =
    | Success(id: string, ok: bool, result: Json)
    | Error(id: string, ok: bool, error: BrowserSidecarError)

  datatype BrowserAutomationError =
    | InvalidRequest(message: string)
    | InvalidResponse(message: string)
    | Sidecar(message: string)
    | NavigationBlocked(message: string)
    | PrivateNetworkBlocked(message: string)
    | ArtifactPath(message: string)
  {
    /** The text its `Display` instance prints. */
    function ToText(): string {
      match this
      case InvalidRequest(m) => "invalid_request:" + m
      case InvalidResponse(m) => "invalid_response:" + m
      case Sidecar(m) => "sidecar:" + m
      case NavigationBlocked(m) => "navigation_blocked:" + m
      case PrivateNetworkBlocked(m) => "private_network_blocked:" + m
      case ArtifactPath(m) => "artifact_path:" + m
    }
  }

  type BrowserResult<+T> = Result<T, BrowserAutomationError>

  /** What the transport hands back for one request: a failure, a line that is no response, or a response. */
  datatype Reply =
    | SendFailed(failure: BrowserAutomationError)
    | Unparsable(parseError: string)
    | Line(response: BrowserResponse)

  datatype BrowserLoopRequest =
    BrowserLoopRequest(goal: string, targetId: string, initialUrl: Option<string>, maxIterations: u32,
                       plan: seq<string>)

  datatype BrowserObservation =
    BrowserObservation(
      targetId: string,
      url: string,
      snapshot: string,
      snapshotHash: string,
      refsMode: string,
      snapshotFormat: string,
      refsCount: u64)

  /** The five status strings a record can carry. */
  datatype IterationStatus = StaleRefRejected | StaleRefRecovered | ActionErrorRecovered | Observed | NoProgress

  datatype BrowserLoopIteration =
    BrowserLoopIteration(
      iteration: nat,
      urlBefore: string,
      snapshotHashBefore: string,
      action: Json,
      expectedObservation: Option<string>,
      urlAfter: string,
      snapshotHashAfter: string,
      status: IterationStatus)

  datatype BrowserLoopOutput =
    BrowserLoopOutput(
      completed: bool,
      output: Json,
      finalObservation: BrowserObservation,
      iterations: seq<BrowserLoopIteration>)

  datatype BrowserLoopDecision =
    | DecideAct(action: Json, expectedObservation: Option<string>)
    | DecideComplete(output: Json)
    | DecideBlocked(reason: string)

  /** The arguments of one `decide_next` call. */
  datatype PlannerCall =
    PlannerCall(request: BrowserLoopRequest, observation: BrowserObservation, iterations: seq<BrowserLoopIteration>)

  // --- the outside world ---

  /** A transport answers its n-th request, a planner its n-th question, an observer its n-th record.
      Quantifying over all such functions covers every stateful transport, planner and observer. */
  type Transport = (nat, BrowserRequest) -> Reply
  type Planner = (nat, PlannerCall) -> BrowserResult<BrowserLoopDecision>
  type Observer = (nat, BrowserLoopIteration) -> BrowserResult<()>
  type Hasher = string -> string

  /** Reading an observation out of a result, given the target asked for. */
  type Viewer = (Json, string) -> BrowserResult<BrowserObservation>

  /** Which planner errors are answered by asking again. */
  type Classifier = BrowserAutomationError -> bool

  // --- pure helpers of the loop ---

  predicate RecoverableSidecarActionError(error: BrowserSidecarError) {
    && error.retryable
    && !error.manualActionRequired
    && (|| error.code == "BROWSER_FORM_FILL_FAILED" || error.code == "BROWSER_ACTION_FAILED"
        || error.code == "BROWSER_ACTION_TIMEOUT" || error.code == "BROWSER_DIALOG_BLOCKED")
  }

  predicate StaleRefError(error: BrowserSidecarError) {
    error.code == "BROWSER_STALE_REF"
  }

  predicate RecoverablePlannerValidationError(error: BrowserAutomationError) {
    && error.InvalidResponse?
    && (|| Contains(error.message, "ref not present in current snapshot")
        || Contains(error.message, "uses selector but selectors are not available"))
  }

  function NormalizedAction(action: Json, targetId: string): (r: BrowserResult<Json>)
    ensures r.Ok? <==> action.JObject?
    ensures r.Ok? ==> r.value.JObject? && r.value.fields.Keys == action.fields.Keys + {"target_id", "snapshot_after"}
    ensures r.Ok? ==> r.value.fields["target_id"] == JString(targetId)
    ensures r.Ok? && "snapshot_after" !in action.fields ==> r.value.fields["snapshot_after"] == JBool(true)
    ensures r.Ok? ==>
              forall key :: key in action.fields && key != "target_id" ==> r.value.fields[key] == action.fields[key]
  {
    match action
    case JObject(fields) =>
      assert "target_id"[0] != "snapshot_after"[0];
      var edited := fields["target_id" := JString(targetId)];
      Ok(JObject(if "snapshot_after" in edited then edited else edited["snapshot_after" := JBool(true)]))
    case _ => Err(InvalidResponse("browser loop action must be a JSON object"))
  }

  function RefsCount(value: Json): u64 {
    match value.Get("stats")
    case Some(JObject(stats)) =>
      (match JObject(stats).Get("refs")
       case Some(JInt(n)) => if 0 <= n < U64_LIMIT then n else ListedRefs(value)
       case _ => ListedRefs(value))
    case _ => ListedRefs(value)
  }

  function ListedRefs(value: Json): u64 {
    match value.Get("refs")
    case Some(JArray(refs)) => |refs| % U64_LIMIT
    case _ => 0
  }

  function TargetIdOf(value: Json, fallback: string): string {
    match (if value.Get("targetId").Some? then value.Get("targetId") else value.Get("target_id"))
    case Some(JString(id)) => id
    case _ => fallback
  }

  function FirstString(value: Json, key: string, otherKey: string): string {
    match value.GetString(key)
    case Some(s) => s
    case None => value.GetString(otherKey).GetOr("unknown")
  }

  /** The word is the text under the first key, else that under the second, else "unknown". */
  predicate TellsWord(value: Json, key: string, otherKey: string, word: string) {
    || value.GetString(key) == Some(word)
    || (value.GetString(key).None? && value.GetString(otherKey) == Some(word))
    || (value.GetString(key).None? && value.GetString(otherKey).None? && word == "unknown")
  }

  /** The number of refs in the statistics, if it is one of 64 bits. */
  function StatedRefs(value: Json): Option<u64> {
    match value.Get("stats")
    case None => None
    case Some(stats) =>
      match stats.Get("refs")
      case Some(JInt(n)) => if 0 <= n < U64_LIMIT then Some(n) else None
      case _ => None
  }

  function RefsList(value: Json): seq<Json> {
    match value.Get("refs")
    case Some(JArray(refs)) => refs
    case _ => []
  }

  /** No list is longer than a 64-bit number can say. */
  predicate FewRefs(value: Json) {
    |RefsList(value)| < U64_LIMIT
  }

  /** The number of refs is the one stated in the statistics, or else the length of the list of refs, if any. */
  predicate TellsRefs(value: Json, count: u64) {
    if StatedRefs(value).Some? then count == StatedRefs(value).value else count == |RefsList(value)|
  }

  function ObservationFromValue(hash: Hasher, value: Json, fallbackTargetId: string)
    : (r: BrowserResult<BrowserObservation>)
    ensures r.Ok? <==> value.GetString("snapshot").Some?
    ensures r.Ok? ==> r.value.snapshot == value.GetString("snapshot").value
    ensures r.Ok? ==> r.value.snapshotHash == hash(r.value.snapshot)
    ensures r.Ok? ==> r.value.url == value.GetString("url").GetOr("")
    // a target under the first key hides the second even if it is no text; a mode or format does not
    ensures r.Ok? && value.Get("targetId").Some?
            ==> r.value.targetId == value.GetString("targetId").GetOr(fallbackTargetId)
    ensures r.Ok? && value.Get("targetId").None?
            ==> r.value.targetId == value.GetString("target_id").GetOr(fallbackTargetId)
    ensures r.Ok? ==> TellsWord(value, "refsMode", "refs_mode", r.value.refsMode)
    ensures r.Ok? ==> TellsWord(value, "snapshotFormat", "snapshot_format", r.value.snapshotFormat)
    ensures r.Ok? && FewRefs(value) ==> TellsRefs(value, r.value.refsCount)
  {
    match value.GetString("snapshot")
    case None => Err(InvalidResponse("browser observation is missing snapshot"))
    case Some(snapshot) =>
      Ok(BrowserObservation(
           TargetIdOf(value, fallbackTargetId),
           value.GetString("url").GetOr(""),
           snapshot,
           hash(snapshot),
           FirstString(value, "refsMode", "refs_mode"),
           FirstString(value, "snapshotFormat", "snapshot_format"),
           RefsCount(value)))
  }

  /** The value tells this observation, among other things, with its keys in camel case. */
  predicate TellsInCamelCase(value: Json, view: BrowserObservation) {
    && value.GetString("targetId") == Some(view.targetId)
    && value.GetString("refsMode") == Some(view.refsMode)
    && value.GetString("snapshotFormat") == Some(view.snapshotFormat)
  }

  /** The same in snake case, without the other keys. */
  predicate TellsInSnakeCase(value: Json, view: BrowserObservation) {
    && value.Get("targetId").None? && value.GetString("refsMode").None? && value.GetString("snapshotFormat").None?
    && value.GetString("target_id") == Some(view.targetId)
    && value.GetString("refs_mode") == Some(view.refsMode)
    && value.GetString("snapshot_format") == Some(view.snapshotFormat)
  }

  /** An observation told in either spelling is read back field by field, whatever the fallback and whatever else
      the value holds, with its snapshot hashed anew. */
  lemma {:induction false} ObservationReadsBack(hash: Hasher, value: Json, view: BrowserObservation, fallback: string)
    requires value.GetString("url") == Some(view.url) && value.GetString("snapshot") == Some(view.snapshot)
    requires TellsInCamelCase(value, view) || TellsInSnakeCase(value, view)
    requires TellsRefs(value, view.refsCount)
    ensures ObservationFromValue(hash, value, fallback) == Ok(view.(snapshotHash := hash(view.snapshot)))
  {
    assert FirstString(value, "refsMode", "refs_mode") == view.refsMode;
    assert RefsCount(value) == view.refsCount;
  }

  /** `BrowserResponse::result`. */
  function ResultOf(response: BrowserResponse): BrowserResult<Json> {
    match response
    case Success(_, true, result) => Ok(result)
    case Success(_, false, _) => Err(InvalidResponse("success response has ok=false"))
    case Error(_, _, error) => Err(SidecarFailure(error))
  }

  function SidecarFailure(error: BrowserSidecarError): BrowserAutomationError {
    Sidecar(error.code + ":" + error.message)
  }

  // --- the parameters the loop sends and the notes it records ---

  function OpenParams(url: string, targetId: string): Json {
    JObject(map["url" := JString(url), "label" := JString(targetId)])
  }

  function SnapshotParams(targetId: string): Json {
    JObject(map["target_id" := JString(targetId),
                "snapshot_format" := JString("ai"),
                "refs_mode" := JString("aria"),
                "mode" := JString("efficient"),
                "interactive" := JBool(true),
                "compact" := JBool(true),
                "depth" := JInt(10),
                "max_chars" := JInt(12_000),
                "urls" := JBool(true)])
  }

  function PlannerErrorNote(error: BrowserAutomationError): Json {
    JObject(map["kind" := JString("planner_validation_error"), "error" := JString(error.ToText())])
  }

  function ActionErrorNote(error: BrowserSidecarError, action: Json): Json {
    JObject(map["kind" := JString("action_error"),
                "error_code" := JString(error.code),
                "error" := JString(error.message),
                "failed_action" := action])
  }

  function BlockedOutput(reason: StopReason): Json {
    JObject(map["blocked_reason" := JString(BlockedText(reason))])
  }

  datatype StopReason = PlannerCompleted | PlannerBlocked(why: string) | RepeatedErrors | RepeatedNoProgress
    | IterationLimit

  /** The text under `blocked_reason`. */
  function BlockedText(reason: StopReason): string {
    match reason
    case PlannerCompleted => ""
    case PlannerBlocked(why) => why
    case RepeatedErrors => "browser loop made no observable progress after repeated retryable action errors"
    case RepeatedNoProgress => "browser loop made no observable progress after repeated actions"
    case IterationLimit => "max browser loop iterations reached"
  }

  /** What the loop expects of the planner after rejecting its choice. */
  function RetryHint(error: BrowserAutomationError): string {
    "planner must retry using only refs from the current snapshot"
  }

  const MAX_NO_PROGRESS_ITERATIONS := 2

  predicate StaleRecord(r: BrowserLoopIteration) {
    r.status.StaleRefRejected? || r.status.StaleRefRecovered?
  }

  predicate Unchanged(r: BrowserLoopIteration) {
    r.urlBefore == r.urlAfter && r.snapshotHashBefore == r.snapshotHashAfter
  }
}
