# Homun: models and proofs

Homun is a desktop assistant. This project models the parts of its repository whose behaviour is hardest to see
from the code, and proves what they guarantee on every input and in every run:

- **The browser agent loop and its client.** A planner is asked what to do next, the browser sidecar is told to do
  it, the page is looked at again, and a record of the step is shown to an observer and kept. Planner, sidecar and
  observer are arbitrary: they answer their n-th question as they like. `BrowserLoopRunner` is the loop as objects
  that send, ask, notify and count; `BrowserLoopSpec` is the same loop as a state machine over values; each method
  is proved to do exactly what the machine does. Everything else is proved of all runs of the machine, those that
  end in an error included: the audit trail is faithful to the wire (`BrowserLoopTrail`, `BrowserLoopTheorems`),
  the stops are exact and request ids never repeat (`BrowserLoopProgress`), and what errors, requests, records and
  reports say is pinned word for word (`BrowserLoopMeaning`).
- **The WebSocket and DevTools client of the deck check**, at the level of bytes, against the frame grammar of
  sections 5.2 and 5.3 of RFC 6455 (`WebSocketFrames`), over a stream that arrives in pieces of any size
  (`WebSocketStream`), up to calls that match replies by id (`CdpCall`).
- **The turn-event reducer and the consistency verdict** (`TurnReducer`, `TurnAudit`).
- **Scanners and aggregators**: ordered snippets (`OrderedSnippets`), the brace matcher (`BraceScan`), `cfg(test)`
  blocks (`CfgTestLines`), finding summaries and caps (`FindingCaps`), timeline and gap budgets (`TimelineCaps`),
  the benchmark score (`PrivacyBenchmark`) and the soak verdict (`StabilitySoak`).

`Wrappers`, `Json`, `Text`, `Bytes`, `Selection` and `Ordering` hold what several of these share. What the source does by
changing things step by step is a method here, proved against a function or predicate that says what it computes.
Lemmas are written with automatic induction switched off, so each inductive proof is the one in its body.

Where the code falls short of what one might expect of it, the model keeps the code and states exactly when the
property holds:

- The final bit of a frame is never looked at, so of a fragmented message only the first fragment arrives
  (`FragmentsAreCut`, `FragmentedMessageExample`).
- A reply that overtakes the reply to an earlier call is discarded (`OvertakenReplyIsLost`,
  `OvertakenReplyExample`): the calls of a connection all conclude if and only if their replies come in time and in
  the order of the calls (`CallsConcludeExactlyInOrder`).
- A completed task whose events still wait for the user passes the audit (`CompletedWhileWaitingPasses`).
- With a budget of zero or less a timeline is still cut to one marker, and cutting again changes the marker
  (`CappingFits`, `CappingTwice`).
- With the usual thresholds, a corpus of only sensitive or only harmless cases qualifies no model
  (`OneSidedCorpusQualifiesNobody`); a model that is always right qualifies if and only if each positive threshold has
  a case of its kind, enough answers were valid JSON, and the percentile is low enough (`PerfectPredictorQualifies`).

That the order of turn events does not matter rests on their keys: all arrangements are ordered alike if and only if
different events have different keys (`OrderForgottenExactly`, with `EqualKeysKeepOrder` to show that the status would
change too). The `turn_events` table guarantees this, its event ids being a primary key and its sequence numbers unique
within a turn (crates/task-runtime/src/store.rs:719-727).

## Model

| member | source | states |
|---|---|---|
| BrowserClient.IdsDistinctUntilWrap | crates/browser-automation/src/client.rs:37-38 | ids printed from consecutive 64-bit counter values are pairwise distinct if and only if no more than 2^64 were issued |
| BrowserClient.Exchange | crates/browser-automation/src/client.rs:32-50 | one request is appended to the log with the next id, the counter advances, and a response is returned if and only if it bears the id just sent |
| BrowserClient.Invoke | crates/browser-automation/src/client.rs:28-30 | a call returns a result if and only if the accepted response is a success with `ok` true and that result |
| BrowserClient.BrowserAutomationClient.CallResponse | crates/browser-automation/src/client.rs:32-50 | the method, which advances the counter and sends, does to counter, log and result what `Exchange` says |
| BrowserClient.BrowserAutomationClient.Call | crates/browser-automation/src/client.rs:28-30 | the method does to counter, log and result what `Invoke` says |
| BrowserClient.RequestIdSays | crates/browser-automation/src/client.rs:37 | an id is the prefix and the counter in decimal, without leading zeros |
| BrowserTypes.NormalizedAction | crates/browser-automation/src/browser_loop.rs:379-396 | only an object is an action; the target is overwritten, `snapshot_after` is kept or set to true, every other entry stays, nothing else is added |
| BrowserTypes.ObservationFromValue | crates/browser-automation/src/browser_loop.rs:398-448 | an observation exists exactly when there is a textual snapshot; its hash is that of the snapshot, and target, url, mode, format and refs count are those the value tells, under the first key, the second, or by default |
| BrowserTypes.ObservationReadsBack | crates/browser-automation/src/browser_loop.rs:402-447 | an observation told with camel-case or with snake-case keys, its refs stated or, if not stated as a 64-bit number, listed, is read back field by field, whatever the fallback target and whatever else the value holds |
| BrowserLoopTrail.CommitStaysFaithful | crates/browser-automation/src/browser_loop.rs:175-178 | showing and appending an explained record leaves nothing unexplained; a refused record is accounted for and reported |
| BrowserLoopTrail.TurnIsFaithful | crates/browser-automation/src/browser_loop.rs:153-325 | every iteration keeps all earlier records explained by requests, answers and questions, and adds one explained record or ends for a cause that is named |
| BrowserLoopTheorems.TrailIsFaithful | crates/browser-automation/src/browser_loop.rs:131-336 | in every run the log is Open if a URL was given, one Snapshot, then per record the requests its status stands for, each answered under its own id; every way of ending has its cause on the wire, in the planner or in the observer |
| BrowserLoopTheorems.TraceIsConnected | crates/browser-automation/src/browser_loop.rs:149-323 | records are numbered from one, each starts on the page the previous one ended on, the final observation is the last page, and the observer saw exactly the records, or after an error these and at most the one it refused |
| BrowserLoopTheorems.ActsAreRecorded | crates/browser-automation/src/browser_loop.rs:199-289 | the actions sent in a successful run are, in order, exactly those the records name, each with the target and a `snapshot_after` entry; a failed run sent those and then the one of the record the observer refused, or at most the one the planner decided on last |
| BrowserLoopTheorems.CompletedIsThePlannersWord | crates/browser-automation/src/browser_loop.rs:182-198 | a reported run is completed if and only if the planner answered some question of this run with Complete; that was the last question, it showed the reported observation and records, and the planner's output is the one reported |
| BrowserLoopMeaning.SidecarErrorDecides | crates/browser-automation/src/browser_loop.rs:210-278 | an accepted error answer to an action makes the loop ask for one snapshot more and record the page as recovered if its code is that of a stale reference, or if it is retryable, needs no manual action and has one of four codes; any other error ends the run with that code and message and nothing more is sent |
| BrowserLoopMeaning.PlannerErrorDecides | crates/browser-automation/src/browser_loop.rs:154-180 | a planner error makes the loop look again and record a rejected choice if and only if it is an invalid response whose text contains one of the two complaints about references; every other ends the run and nothing is sent |
| BrowserLoopMeaning.RequestsSayWhatTheyAreFor | crates/browser-automation/src/browser_loop.rs:139-147 | every request of every run opens the start page under the target's label, asks for the target's page with exactly the agreed parameters, or is an action that carries the target |
| BrowserLoopMeaning.RecordsTellWhatHappened | crates/browser-automation/src/browser_loop.rs:158-259 | every record of every run names the action that was sent, or for a rejected choice the planner's complaint and the retry hint, or for a failed action the sidecar's code and message and the action |
| BrowserLoopMeaning.ReportTellsWhy | crates/browser-automation/src/browser_loop.rs:182-335 | every report holds the run's records and last page, and if the run was not completed says why under `blocked_reason`: the planner's words, or one text for two unchanged pages after an error, one after an action, one for the iteration limit |
| BrowserLoopProgress.StreakIsTrailing | crates/browser-automation/src/browser_loop.rs:294-301 | the counter's recurrence computes the one length of the trailing run of unchanged records, stale-reference records left out |
| BrowserLoopProgress.StopsAreExact | crates/browser-automation/src/browser_loop.rs:151-335 | a no-progress stop is given exactly when that streak first reaches two, with the text of the last record's kind, and the iteration limit exactly when all iterations were recorded and no stop came first |
| BrowserLoopProgress.IdsNeverRepeat | crates/browser-automation/src/client.rs:37-39 | a run sends at most two requests per iteration and two before, their ids are consecutive, and no two print alike |
| BrowserLoopRunner.BrowserLoopRunner.TakeSnapshot | crates/browser-automation/src/browser_loop.rs:338-354 | the method does to the client what the machine's snapshot step says |
| BrowserLoopRunner.BrowserLoopRunner.RecordProgress | crates/browser-automation/src/browser_loop.rs:236-270 | counting, recording, notifying and stopping on two unchanged pages, as the machine does them, in both branches that count |
| BrowserLoopRunner.BrowserLoopRunner.Perform | crates/browser-automation/src/browser_loop.rs:206-289 | the sidecar's answer leads to the same of five branches as in the machine, with the same effects and result |
| BrowserLoopRunner.BrowserLoopRunner.Iterate | crates/browser-automation/src/browser_loop.rs:154-325 | one pass through the loop body is one turn of the machine |
| BrowserLoopRunner.BrowserLoopRunner.RunTurns | crates/browser-automation/src/browser_loop.rs:149-335 | the loop over mutable observation, records and counter does all turns of the machine and reports its outcome |
| BrowserLoopRunner.BrowserLoopRunner.RunWithIterationObserver | crates/browser-automation/src/browser_loop.rs:131-336 | the method's result and its effects on wire, planner and observer are those of the machine's run; on success the observer saw the returned records, the actions sent are those recorded, and no id was used twice |
| Bytes.UnpackPack | runtimes/contained-computer/deck_qa.py:73-76 | unpacking a packed length gives the length |
| Bytes.PackUnpack | runtimes/contained-computer/deck_qa.py:98-100 | packing an unpacked length gives the bytes, and every unpacked length fits its width |
| Bytes.PackedDigits | runtimes/contained-computer/deck_qa.py:73-76 | each byte of a packed length is its digit to base 256, the most significant first |
| WebSocketFrames.FrameLayout | runtimes/contained-computer/deck_qa.py:65-80 | where everything stands in a frame: first byte, mask bit, length in the second byte or behind 126 or 127, mask, and each payload byte combined with its mask byte |
| WebSocketFrames.ClientFrameIsFinalText | runtimes/contained-computer/deck_qa.py:67 | what is sent has the final bit, no reserved bit, opcode 1, the drawn mask and the payload |
| WebSocketFrames.MaskedHello | runtimes/contained-computer/deck_qa.py:65-80 | "Hello" is sent as the bytes given in section 5.7 of RFC 6455 |
| WebSocketFrames.ReadEncoded | runtimes/contained-computer/deck_qa.py:93-106 | reading an encoded frame, masked or not, in any length form, yields its opcode and payload and stops exactly behind it |
| WebSocketFrames.ReadIsEncoded | runtimes/contained-computer/deck_qa.py:93-106 | whatever is read as a frame is the encoding of a valid frame followed by what remains |
| WebSocketFrames.FramesArePrefixFree | runtimes/contained-computer/deck_qa.py:65-80 | frames are encoded injectively, and no frame is a proper prefix of another |
| WebSocketFrames.ShortFrameIsClosed | runtimes/contained-computer/deck_qa.py:83-90 | a frame cut short anywhere reads as a closed connection |
| WebSocketFrames.ClientFrameIsShortest | runtimes/contained-computer/deck_qa.py:68-76 | no masked frame with as long a payload is shorter than the one sent, and an equally short one has the same length form |
| WebSocketStream.SendReceiveRoundTrip | runtimes/contained-computer/deck_qa.py:65-80 | for every payload shorter than 2^64 bytes and every mask, receiving what is sent gives the payload back and leaves what follows |
| WebSocketStream.OpcodeDecides | runtimes/contained-computer/deck_qa.py:95-110 | the low four bits of the first byte decide: 8 closes, 1 and 2 deliver the payload, all others are skipped |
| WebSocketStream.ReceiveSynchronises | runtimes/contained-computer/deck_qa.py:107-110 | any frames that are neither text, binary nor close are skipped, the next data payload is delivered or the close reported, and the stream stands right behind that frame |
| WebSocketStream.DeliveredIsFramed | runtimes/contained-computer/deck_qa.py:93-110 | conversely, whatever is delivered was a data frame (or a close frame) behind skipped frames, and no other byte was consumed |
| WebSocketStream.ShortStreamEnds | runtimes/contained-computer/deck_qa.py:83-90 | a stream that ends inside the first frame that matters reports the closed connection |
| WebSocketStream.FragmentsAreCut | runtimes/contained-computer/deck_qa.py:94-110 | of a message in fragments (section 5.4 of RFC 6455) the whole is delivered if and only if the first frame is final or the rest is empty |
| WebSocketStream.FragmentedMessageExample | runtimes/contained-computer/deck_qa.py:94-110 | the two-frame message "ab" is received as "a" |
| WebSocketStream.RecvExact | runtimes/contained-computer/deck_qa.py:83-90 | however the socket cuts the stream, exactly the requested bytes are returned and consumed, or a short stream is drained and reported |
| WebSocketStream.RecvFrame | runtimes/contained-computer/deck_qa.py:93-106 | result and position after reading one frame piece by piece are those of reading it from the whole stream |
| WebSocketStream.WsRecv | runtimes/contained-computer/deck_qa.py:93-110 | result and position depend on the bytes alone, not on the chunks they came in |
| WebSocketStream.WsSend | runtimes/contained-computer/deck_qa.py:65-80 | exactly one final masked text frame with the payload is appended to what was sent; a payload of 2^64 bytes or more is refused and nothing is sent |
| CdpCall.FirstReplyAnswers | runtimes/contained-computer/deck_qa.py:113-122 | in time, a call gets the first message bearing its id and consumes exactly the frames up to it, whatever events, other replies and control frames come before |
| CdpCall.AnswerIsFirstReply | runtimes/contained-computer/deck_qa.py:113-122 | conversely, on any bytes, a call that concludes did so in time on the first message bearing its id, having consumed exactly the frames up to it and read the clock once per message |
| CdpCall.ReplyDecides | runtimes/contained-computer/deck_qa.py:117-121 | of the first message whose "id" equals that of the call (as an integer, a real, or a boolean for zero and one), the value under "error" is raised if there is one; otherwise the value under "result" is returned, or the empty object |
| CdpCall.ConclusionIsSaid | runtimes/contained-computer/deck_qa.py:113-122 | conversely, on any bytes, a call that concludes says what the first message with its id says under "error" and "result" |
| CdpCall.FailureDecides | runtimes/contained-computer/deck_qa.py:107-117 | behind messages that are not for it, a call in time fails on a close frame or on a message that is no object, which is the last it consumes |
| CdpCall.CutStreamFails | runtimes/contained-computer/deck_qa.py:83-90 | behind messages that are not for it, a call in time reports a closed connection on a stream that ends inside a frame |
| CdpCall.TimeIsUp | runtimes/contained-computer/deck_qa.py:115-122 | behind messages that are not for it, a call whose time is up reports a timeout whatever would come next |
| CdpCall.NoReplyNoAnswer | runtimes/contained-computer/deck_qa.py:116-122 | without a reply in the stream no call concludes |
| CdpCall.EveryCallGetsItsReply | runtimes/contained-computer/deck_qa.py:444-452 | successive calls on one connection each get their own reply, and consume exactly the frames up to the last, if replies come in time and in the order of the calls |
| CdpCall.CallsConcludeExactlyInOrder | runtimes/contained-computer/deck_qa.py:444-452 | on any bytes, all calls conclude if and only if the stream starts with their replies in the order of the calls, each behind frames its call passes over, and the clock does not run out while these are read |
| CdpCall.OvertakenReplyIsLost | runtimes/contained-computer/deck_qa.py:113-122 | if the second reply comes first, the first call still succeeds but consumes it, and the second call never concludes |
| CdpCall.OvertakenReplyExample | runtimes/contained-computer/deck_qa.py:113-122 | two one-byte messages with ids 2 and 1 in that order answer call 1 and not call 2 |
| CdpCall.Call | runtimes/contained-computer/deck_qa.py:113-122 | the method sends one frame and then waits as specified: outcome, stream position and clock readings |
| Text.SpacesListed | scripts/audit_turn_consistency.py:146 | the characters that stripping removes, one by one |
| TurnReducer.ReadPayload | scripts/audit_turn_consistency.py:140-166 | a text counts exactly when it is a string that is not blank, and then stripped; the wake kind asks for approval exactly for two words and raises exactly when it is a list or an object |
| TurnReducer.ReduceEvents | scripts/audit_turn_consistency.py:109-175 | the loop returns the summary of the sorted events: the first terminal fixes status, sequence number, kind and text; without one the last suspension gives the waiting state; otherwise running, or empty for no events; over the events in any order, the last number is the greatest, and the end is the terminal event with the least number and event id, with the status its kind stands for |
| TurnReducer.OrderedAscends | scripts/audit_turn_consistency.py:110 | sorting rearranges the events so that sequence numbers ascend, and event ids where these are equal |
| TurnReducer.ContradictionsTell | scripts/audit_turn_consistency.py:119-154 | the contradictions are, in order, the missing text of a failed end and one per later event of the three terminal and four activity kinds, with its kind and number |
| TurnReducer.ReductionForgetsOrder | scripts/audit_turn_consistency.py:110 | the order of the input does not matter if sequence number and event id identify events |
| TurnReducer.OrderForgottenExactly | scripts/audit_turn_consistency.py:110 | all arrangements of the events are sorted alike if and only if different events have different keys |
| TurnReducer.EqualKeysKeepOrder | scripts/audit_turn_consistency.py:110 | two events with equal keys reduce to completed in one order and to cancelled in the other |
| TurnReducer.ReductionContinues | scripts/audit_turn_consistency.py:116-167 | reducing a prefix and continuing event by event is reducing the whole |
| TurnReducer.TerminalIsForGood | scripts/audit_turn_consistency.py:119-136 | after a terminal event status, kind, number and failure text never change, and each later event adds its own contradiction and nothing else |
| TurnReducer.WaitingIsSticky | scripts/audit_turn_consistency.py:159-167 | a waiting status survives every event that is neither terminal nor a suspension |
| TurnReducer.ContradictionsAreCounted | scripts/audit_turn_consistency.py:119-154 | exactly one contradiction per later terminal, activity, plan, step or heartbeat event, one more for an error without text, none without a terminal event |
| TurnAudit.OnlyObjects | scripts/audit_turn_consistency.py:89-96 | the plan steps are the entries that are objects, in order and each as often as it occurs |
| TurnAudit.ActiveSteps | scripts/audit_turn_consistency.py:99-106 | a plan that is missing or not open has no active steps; those of an open plan are its runnable steps, in order; it raises exactly when the steps cannot be looped over or some step has a status that cannot be looked up |
| TurnAudit.ActiveStepsCanRun | scripts/audit_turn_consistency.py:89-106 | of an open plan that is a list, or an object with the list under "steps", a step is active if and only if it is an object in the list with status "todo", "doing" or "in_progress"; it raises exactly if an object in the list has a list or an object as status |
| TurnAudit.NoListNoSteps | scripts/audit_turn_consistency.py:89-96 | an open plan of any other shape has no active steps, or raises if "steps" is a number, a boolean or null |
| TurnAudit.EachFindingHasItsCause | scripts/audit_turn_consistency.py:240-324 | each finding is reported if and only if its cause is there, spelled out for every kind of finding |
| TurnAudit.AuditTurn | scripts/audit_turn_consistency.py:240-337 | the report lists exactly the findings of the checks in order, and is ok if and only if the turn is consistent; a terminal task whose open plan lists a step that can run is never ok |
| TurnAudit.NothingFoundMeansConsistent | scripts/audit_turn_consistency.py:240-337 | nothing is found if and only if a task exists, the events do not contradict each other, and a terminal task is matched or still waited for in the events, matched by every run, has no runnable step in an open plan, and, if failed with a message, has a visible message marked failed |
| TurnAudit.CleanExpiredIsWaiting | scripts/audit_turn_consistency.py:254-279 | a clean expired task has waiting events and aborted runs only |
| TurnAudit.CleanEndHasOneTerminalEvent | scripts/audit_turn_consistency.py:240-279 | a clean ended task has exactly one terminal event, its own, with no activity behind it and with text if it failed, or none at all and a suspension |
| TurnAudit.CompletedWhileWaitingPasses | scripts/audit_turn_consistency.py:254-279 | a completed task whose only event is a suspension passes |
| OrderedSnippets.AssertOrdered | scripts/check_gateway_main_contract.py:1650-1658 | passes if and only if the snippets occur at strictly increasing positions; otherwise names the first snippet that cannot be placed; its out-of-order branch is never reached |
| OrderedSnippets.EarliestExtends | scripts/check_gateway_main_contract.py:1652-1658 | the earliest match is nowhere later than the positions of any other arrangement |
| BraceScan.ExtractAsyncMainBody | scripts/check_gateway_main_contract.py:247-265 | what is returned is balanced text enclosed in the first braces after the marker, and each error is raised exactly when that part of the text does not exist |
| BraceScan.BodyIsFound | scripts/check_gateway_main_contract.py:256-264 | if a balanced body stands behind the brace, the depth counter closes exactly behind it |
| BraceScan.FoundIsBody | scripts/check_gateway_main_contract.py:256-264 | where the depth counter closes, the text passed over is derivable as balanced |
| BraceScan.BodyIsUnique | scripts/check_gateway_main_contract.py:256-264 | at most one balanced body starts at a position |
| BraceScan.ExtractionIsUnique | scripts/check_gateway_main_contract.py:247-265 | the description of the extraction determines its result for every source |
| BraceScan.BodyIsExtracted | scripts/check_gateway_main_contract.py:247-265 | for the first marker, text without an opening brace, a balanced body in braces and any tail, the extraction is exactly that body |
| BraceScan.BodyIsLocated | scripts/check_gateway_main_contract.py:248-254 | after the first marker and text without an opening brace, the body looked at is the one in the next braces |
| CfgTestLines.TestLines | scripts/find_italian.py:142-161 | the skipped lines are those of disjoint blocks in order, each from a marker line to the first line that closes it or the end of file, and every marker line is inside one |
| CfgTestLines.CountIsOfPositions | scripts/find_italian.py:150 | a brace count is the number of positions where the brace stands |
| CfgTestLines.BlockEnd | scripts/find_italian.py:149-157 | the inner scan ends at the least line where a brace was opened and the balance is not positive |
| CfgTestLines.TilingIsUnique | scripts/find_italian.py:142-161 | only one sequence of blocks meets that description |
| CfgTestLines.TestLinesAreDetermined | scripts/find_italian.py:142-161 | so only one set of lines meets it, the one returned |
| FindingCaps.SummarizeFindings | scripts/audit_homun_state.py:1324-1355 | total, errors, warnings and both dictionaries are those of the findings, and errors and warnings add up to the total |
| FindingCaps.CountsAreOfFindings | scripts/audit_homun_state.py:1324-1355 | the counts are of findings: those of a code in order, those of a domain, and as errors those of severity error |
| FindingCaps.SummaryCounts | scripts/audit_homun_state.py:1324-1355 | the counts by domain and by code are right for every domain and code and each sum to the total; a bucket describes the first finding of its code |
| FindingCaps.BucketRepeatsFirst | scripts/audit_homun_state.py:1334-1344 | exactly the codes that occur have a bucket; it counts their findings, omits none, and repeats domain, severity and owner of the first |
| FindingCaps.CapFindingsByCode | scripts/audit_homun_state.py:1358-1377 | the kept findings are an in-order subsequence with exactly the first findings of each code up to the cap, and every bucket's omitted count is set accordingly, the rest of the summary untouched; with a positive cap it raises if and only if some finding has no bucket, on the first such code, the buckets before it done |
| FindingCaps.CappingConserves | scripts/audit_homun_state.py:1375-1376 | kept and omitted add up to the count of each code, and nothing else in its bucket changes |
| TimelineCaps.CappingConserves | scripts/audit_homun_state.py:1158-1175 | a marker-free timeline is left alone or becomes a beginning, one marker and an end, and kept plus omitted, as the timeline sums it, is the total |
| TimelineCaps.CappingUsesTheBudget | scripts/audit_homun_state.py:1158-1175 | a timeline that does not fit is cut to exactly the budget, a third of which, but one to ten entries, stands before the marker; a budget of one or less leaves the marker alone |
| TimelineCaps.CappingFits | scripts/audit_homun_state.py:1158-1165 | the result fits the budget if and only if the budget is positive or there is nothing to show |
| TimelineCaps.CappingTwice | scripts/audit_homun_state.py:1158-1175 | capping again changes nothing if and only if the budget is positive or there was at most one event |
| TimelineCaps.BuildRuntimeDiagnosticGaps | scripts/audit_homun_state.py:1192-1321 | for a budget of zero or more the staged collection is the first gaps of all stages in a row; a negative budget returns all of the first stage and none of the others |
| PrivacyBenchmark.P95IsNearestRank | scripts/privacy_guard_benchmark.py:49-51 | the percentile is one of the latencies, at least ceil(0.95 n) of them are no higher, and fewer than that are lower |
| PrivacyBenchmark.Ceil95IsCeiling | scripts/privacy_guard_benchmark.py:50 | the rank is the least whole number not below 0.95 n |
| PrivacyBenchmark.P95ForgetsOrder | scripts/privacy_guard_benchmark.py:49-51 | the order of measurement does not matter |
| PrivacyBenchmark.ScoreIsExact | scripts/privacy_guard_benchmark.py:37-68 | recall is the share of positive cases predicted positive, specificity that of negative cases predicted negative, the JSON rate that of valid answers, and a model qualifies if and only if all four measures reach their limits, 0.95, 0.90, 0.99 and 12000 by default; lists of different lengths are refused |
| PrivacyBenchmark.CorrectingRaisesItsRate | scripts/privacy_guard_benchmark.py:45-53 | correcting a wrong prediction raises the rate of its kind and leaves the other alone |
| PrivacyBenchmark.RatesAreProportions | scripts/privacy_guard_benchmark.py:45-53 | recall and specificity lie between zero and one |
| PrivacyBenchmark.CorrectingKeepsQualified | scripts/privacy_guard_benchmark.py:47-60 | correcting a wrong prediction never turns qualified into unqualified |
| PrivacyBenchmark.PerfectPredictorQualifies | scripts/privacy_guard_benchmark.py:45-60 | a predictor that is always right qualifies if and only if recall and specificity thresholds are at most one (zero without a case of the kind), the valid-JSON rate reaches its threshold and the percentile does not exceed its own |
| PrivacyBenchmark.OneSidedCorpusQualifiesNobody | scripts/privacy_guard_benchmark.py:45-60 | with a positive threshold, a corpus without cases of one kind qualifies nobody, not even a perfect predictor |
| StabilitySoak.Evaluate | scripts/stability_soak.py:33-72 | each violation is reported if and only if it holds of the events, and the run passes exactly when there is none; the reported counts are those of the events |
| StabilitySoak.TalliesAreOfEvents | scripts/stability_soak.py:45-51 | the tallies hold the number of terminal events of a turn and the assistant ids these name; an event belongs to the turn it names, else to its thread, else to "unknown" |
| StabilitySoak.CleanTurnsEndOnce | scripts/stability_soak.py:56-65 | a run without violations ended every expected turn exactly once, for exactly one assistant id |
| StabilitySoak.MoreEventsOnlyAdd | scripts/stability_soak.py:43-65 | more events never take back a focus, duplicate or leak violation and never bring about a missing one |
| StabilitySoak.VerdictForgetsOrder | scripts/stability_soak.py:43-65 | the verdict does not depend on the order of the events |

## Left out

- Sockets, HTTP, SQLite and its queries, clocks, random bytes and files: answers from outside are arbitrary functions or input sequences.
- JSON and UTF-8 parsing: payloads are bytes or JSON values, and a parser is an arbitrary function that may fail.
- The snapshot hash is an arbitrary function, so equal snapshots have equal hashes and nothing is said of the converse.
- BrowserClient.Exchange: the request counter wraps at 2^64 as in a release build; a debug build would panic there instead.
- BrowserLoopRunner.BrowserLoopRunner.RunWithIterationObserver: the run without an observer is this one with an observer that always agrees; the request builders and the event payload of a record are not modelled.
- Iteration statuses, event kinds and task, run and delivery states are enumerations of their texts.
- WebSocketStream.WsRecv: Python's recursion limit, met after about a thousand control frames in a row, is not modelled.
- CdpCall.CallsConcludeExactlyInOrder: an error reply concludes its call like a result; that the source raises on it and so makes no further call is not modelled.
- The WebSocket handshake, starting Chromium and the script that measures a page.
- TurnReducer.ReduceEvents: contradictions carry the values their texts mention, not the texts or the owner names.
- TurnAudit.AuditTurn: finding the rows of a turn and its assistant message in the database is not modelled, only the verdict on them.
- FindingCaps.SummarizeFindings: the sorting of the two dictionaries for display is not modelled.
- TimelineCaps.BuildRuntimeDiagnosticGaps: each stage's query is a given list of rows, of which `limit` takes the first.
- PrivacyBenchmark.P95IsNearestRank: exact arithmetic; the rounding of 0.95 n in floating point is not modelled.
- StabilitySoak.Evaluate: looking for reasoning markers in the lower-cased text is an input flag; the violations are a set, not a sorted list.
- The snippet lists of the gateway contract and the step lists of the gate scripts: data.
- Rendering, themes, React views, regex redaction and artifact path checks: they would only add easy members.
- The turn broker, leases, outbox and engine loop are not part of this model.
