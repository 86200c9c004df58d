/** What every run of the agent loop guarantees, including runs that end in an error. */
module BrowserLoopTheorems {
  import opened Wrappers
  import opened Json
  import opened BrowserTypes
  import opened BrowserClient
  import opened BrowserLoopSpec
  import opened BrowserLoopTrail

  // --- the trail of a whole run ---

  /** A run that fails before it saw anything did so on its last request. */
  ghost predicate StartupFailure(world: World, request: BrowserLoopRequest, start: Origin, wire: Wire,
                                 error: BrowserAutomationError) {
    && start.wire.sent <= wire.sent && |start.wire.sent| < |wire.sent| <= |start.wire.sent| + Preamble(request)
    && WireFailure(world, request.targetId, wire.sent, error)
  }

  ghost predicate RunResult(world: World, request: BrowserLoopRequest, start: Origin, o: Outcome) {
    if o.Unstarted? then StartupFailure(world, request, start, o.wire, o.error)
    else Ended(world, request, start, o)
  }

  /** Between turns: everything so far is explained and the next iteration follows the last record. */
  ghost predicate Between(world: World, request: BrowserLoopRequest, start: Origin, m: Machine, iteration: nat) {
    Settled(world, request, start, m) && |m.asked| == |start.asked| + |m.records| && iteration == |m.records| + 1
  }

  lemma {:induction false} TurnStaysBetween(world: World, request: BrowserLoopRequest, start: Origin, m: Machine,
                                            iteration: nat)
    requires Between(world, request, start, m, iteration)
    ensures var o := TurnOf(world, request)(m, iteration);
            if o.Running? then Between(world, request, start, o.state, iteration + 1)
            else Ended(world, request, start, o)
  {
    TurnIsFaithful(world, request, start, m);
  }

  lemma {:induction false} LimitIsEnded(world: World, request: BrowserLoopRequest, start: Origin, m: Machine,
                                        iteration: nat)
    requires Between(world, request, start, m, iteration)
    ensures Ended(world, request, start, Stopped(m, IterationLimit, BlockedOutput(IterationLimit)))
  {
  }

  lemma {:induction false} RunFromIsFaithful(world: World, request: BrowserLoopRequest, start: Origin, m: Machine)
    requires Between(world, request, start, m, 1)
    ensures Ended(world, request, start, RunFrom(TurnOf(world, request), request.maxIterations, m, 1))
  {
    var turn := TurnOf(world, request);
    var inv := (s: Machine, i: nat) => Between(world, request, start, s, i);
    var ended := (o: Outcome) => Ended(world, request, start, o);
    forall s: Machine, i: nat | inv(s, i) && i <= request.maxIterations ensures Leads(turn(s, i), i, inv, ended) {
      TurnStaysBetween(world, request, start, s, i);
    }
    forall s: Machine | inv(s, request.maxIterations + 1)
      ensures ended(Stopped(s, IterationLimit, BlockedOutput(IterationLimit)))
    {
      LimitIsEnded(world, request, start, s, request.maxIterations + 1);
    }
    RunInduction(turn, request.maxIterations, m, 1, inv, ended);
  }

  lemma {:induction false} FirstViewIsSettled(world: World, request: BrowserLoopRequest, start: Origin, wire: Wire,
                                              view: BrowserObservation)
    requires start.wire.sent <= wire.sent && |wire.sent| == |start.wire.sent| + Preamble(request)
    requires Opening(world, request, wire.sent, |start.wire.sent|, view)
    ensures Between(world, request, start, FirstState(start, wire, view), 1)
  {
    assert start.seen + [] == start.seen;
  }

  /** Every run leaves a faithful trail: each record is explained by the requests, answers and questions that
      led to it, and each way of ending has its cause on the wire, in the planner or in the observer. */
  lemma {:induction false} TrailIsFaithful(world: World, request: BrowserLoopRequest, start: Origin)
    ensures RunResult(world, request, start, Run(world, request, start))
  {
    var base := |start.wire.sent|;
    var landed := start.wire;
    if request.initialUrl.Some? {
      var params := OpenParams(request.initialUrl.value, request.targetId);
      var (wire, answer) := Exchange(world.transport, start.wire, Open, params);
      landed := wire;
      assert wire.sent[base] == BrowserRequest(RequestId(start.wire.nextId), Open, params);
      if answer.Ok? {
        assert Accepted(world.transport, wire.sent, base, answer.value);
      }
      if Invoke(world.transport, start.wire, Open, params).1.Err? {
        return;
      }
    }
    SnapshotFacts(world, landed, request.targetId);
    var (wire, view) := TakeSnapshot(world, landed, request.targetId);
    if view.Ok? {
      if request.initialUrl.Some? {
        assert wire.sent[base] == landed.sent[base];
      }
      FirstViewIsSettled(world, request, start, wire, view.value);
      RunFromIsFaithful(world, request, start, FirstState(start, wire, view.value));
    }
  }

  // --- the trace is a connected chain, shown to the observer record by record ---

  predicate LinkedAt(first: BrowserObservation, rs: seq<BrowserLoopIteration>, k: nat) {
    && k < |rs|
    && rs[k].iteration == k + 1
    && rs[k].urlBefore == (if k == 0 then first.url else rs[k - 1].urlAfter)
    && rs[k].snapshotHashBefore == (if k == 0 then first.snapshotHash else rs[k - 1].snapshotHashAfter)
  }

  /** Records are numbered from one and each starts from the page the previous one ended on. */
  ghost predicate Connected(first: BrowserObservation, rs: seq<BrowserLoopIteration>) {
    forall k :: 0 <= k < |rs| ==> LinkedAt(first, rs, k)
  }

  /** The observation is the page the last record ended on. */
  predicate EndsOn(first: BrowserObservation, rs: seq<BrowserLoopIteration>, last: BrowserObservation) {
    if rs == [] then last == first
    else last.url == rs[|rs| - 1].urlAfter && last.snapshotHash == rs[|rs| - 1].snapshotHashAfter
  }

  lemma {:induction false} FaithfulIsConnected(world: World, request: BrowserLoopRequest, start: Origin, m: Machine)
    requires Faithful(world, request, start, m)
    ensures Connected(m.views[0], m.records) && EndsOn(m.views[0], m.records, m.View())
  {
    forall k | 0 <= k < |m.records| ensures LinkedAt(m.views[0], m.records, k) {
      assert ExplainedAt(world, request, start, m, k);
      assert k > 0 ==> ExplainedAt(world, request, start, m, k - 1);
    }
    if m.records != [] {
      assert ExplainedAt(world, request, start, m, |m.records| - 1);
    }
  }

  /** The observer approved the first records it was shown, which are those of the trail. */
  ghost predicate Witnessed(world: World, start: Origin, s: Machine) {
    && start.seen + s.records <= s.seen
    && forall k :: 0 <= k < |s.records| ==> ApprovedAt(world, start, s, k)
  }

  /** All that was shown is one chain: the trail, plus the one refused record if there is one. */
  ghost predicate ShownInOrder(world: World, start: Origin, o: Outcome) {
    !o.Unstarted? &&
    var s := o.state;
    && Witnessed(world, start, s)
    && Connected(s.views[0], s.records) && EndsOn(s.views[0], s.records, s.View())
    && if s.seen == start.seen + s.records then true
       else
         && o.Failed? && |s.seen| == |start.seen| + |s.records| + 1
         && ObserverFailure(world, s.seen, o.error)
         && Connected(s.views[0], s.records + [s.seen[|s.seen| - 1]])
  }

  lemma {:induction false} RefusedRecordConnects(world: World, request: BrowserLoopRequest, start: Origin, s: Machine)
    requires |s.views| == |s.cuts| == |s.records| + 1 && RefusedRecord(world, request, start, s)
    requires Connected(s.views[0], s.records) && EndsOn(s.views[0], s.records, s.View())
    ensures s.seen != [] && Connected(s.views[0], s.records + [s.seen[|s.seen| - 1]])
  {
    var after :| RefusedLeadingTo(world, request, start, s, after);
    var n, shown := |s.records|, s.seen[|s.seen| - 1];
    assert shown.iteration == n + 1;
    assert shown.urlBefore == s.View().url && shown.snapshotHashBefore == s.View().snapshotHash;
    var rs := s.records + [shown];
    forall k | 0 <= k < n + 1 ensures LinkedAt(s.views[0], rs, k) {
      assert k < n ==> LinkedAt(s.views[0], s.records, k);
    }
  }

  lemma {:induction false} EndedInOrder(world: World, request: BrowserLoopRequest, start: Origin, o: Outcome)
    requires Ended(world, request, start, o)
    ensures ShownInOrder(world, start, o)
  {
    FaithfulIsConnected(world, request, start, o.state);
    if o.state.seen != start.seen + o.state.records {
      RefusedRecordConnects(world, request, start, o.state);
    }
  }

  /** On success the observer saw exactly the reported records and approved each; on failure it saw the
      recorded prefix and at most the one record it refused, and what it saw is still one chain. */
  lemma {:induction false} TraceIsConnected(world: World, request: BrowserLoopRequest, start: Origin)
    ensures var o := Run(world, request, start); o.Unstarted? || ShownInOrder(world, start, o)
  {
    TrailIsFaithful(world, request, start);
    var o := Run(world, request, start);
    if !o.Unstarted? {
      EndedInOrder(world, request, start, o);
    }
  }

  // --- completion is the planner's word ---

  /** The planner's answer to question `i` was that the goal is reached. */
  ghost predicate SaidDoneAt(world: World, s: Machine, i: nat) {
    && i < |s.asked|
    && world.planner(i, s.asked[i]).Ok? && world.planner(i, s.asked[i]).value.DecideComplete?
  }

  lemma {:induction false} RecordedTurnWasNotDone(world: World, request: BrowserLoopRequest, start: Origin, s: Machine,
                                                  k: nat)
    requires ExplainedAt(world, request, start, s, k) && AskedAt(request, start, s, k)
    ensures !SaidDoneAt(world, s, |start.asked| + k)
  {
  }

  /** The result is a completion exactly when the planner said so during this run; it said so once, in answer
      to its last question, having seen the reported observation and records, and its output is passed on. */
  ghost predicate CompletionIsExact(world: World, request: BrowserLoopRequest, start: Origin, s: Machine,
                                    r: BrowserLoopOutput) {
    && (r.completed <==> exists i: nat :: |start.asked| <= i && SaidDoneAt(world, s, i))
    && forall i: nat :: |start.asked| <= i && SaidDoneAt(world, s, i) ==>
         && i == |s.asked| - 1
         && s.asked[i] == PlannerCall(request, r.finalObservation, r.iterations)
         && world.planner(i, s.asked[i]) == Ok(DecideComplete(r.output))
  }

  lemma {:induction false} OnlyTheLastAnswerIsDone(world: World, request: BrowserLoopRequest, start: Origin, s: Machine,
                                                   i: nat)
    requires Faithful(world, request, start, s)
    requires |start.asked| <= i && SaidDoneAt(world, s, i)
    ensures i == |start.asked| + |s.records| == |s.asked| - 1
  {
    var k := i - |start.asked|;
    assert AskedAt(request, start, s, k);
    if k < |s.records| {
      assert ExplainedAt(world, request, start, s, k);
      RecordedTurnWasNotDone(world, request, start, s, k);
    }
  }

  lemma {:induction false} LastQuestion(world: World, request: BrowserLoopRequest, start: Origin, s: Machine)
    requires Faithful(world, request, start, s) && |s.asked| == |start.asked| + |s.records| + 1
    ensures s.asked[|s.asked| - 1] == PlannerCall(request, s.View(), s.records)
  {
    assert AskedAt(request, start, s, |s.records|);
    assert s.records[..|s.records|] == s.records;
  }

  lemma {:induction false} StoppedIsExact(world: World, request: BrowserLoopRequest, start: Origin, o: Outcome)
    requires o.Stopped? && Ended(world, request, start, o)
    ensures CompletionIsExact(world, request, start, o.state, Report(o).value)
  {
    var s := o.state;
    if |s.asked| == |start.asked| + |s.records| + 1 {
      LastQuestion(world, request, start, s);
      assert o.reason.PlannerCompleted? ==> SaidDoneAt(world, s, |s.asked| - 1);
    }
    forall i: nat | |start.asked| <= i && SaidDoneAt(world, s, i)
      ensures i == |start.asked| + |s.records| == |s.asked| - 1
    {
      OnlyTheLastAnswerIsDone(world, request, start, s, i);
    }
  }

  lemma {:induction false} CompletedIsThePlannersWord(world: World, request: BrowserLoopRequest, start: Origin)
    ensures var o := Run(world, request, start);
            && (Report(o).Ok? <==> o.Stopped?)
            && (o.Stopped? ==> CompletionIsExact(world, request, start, o.state, Report(o).value))
  {
    TrailIsFaithful(world, request, start);
    var o := Run(world, request, start);
    if o.Stopped? {
      StoppedIsExact(world, request, start, o);
    }
  }

  // --- the actions on the wire are the actions in the trail ---

  function ActsSent(sent: seq<BrowserRequest>): seq<Json> {
    if sent == [] then []
    else
      var last := sent[|sent| - 1];
      ActsSent(sent[..|sent| - 1]) + (if last.verb.Act? then [last.params] else [])
  }

  function ActsRecorded(rs: seq<BrowserLoopIteration>): seq<Json> {
    if rs == [] then []
    else
      ActsRecorded(rs[..|rs| - 1]) + ActsOf(rs[|rs| - 1])
  }

  lemma {:induction false} ActsSentConcat(s: seq<BrowserRequest>, t: seq<BrowserRequest>)
    ensures ActsSent(s + t) == ActsSent(s) + ActsSent(t)
  {
    if t == [] {
      assert s + t == s;
    } else {
      assert (s + t)[..|s + t| - 1] == s + t[..|t| - 1];
      ActsSentConcat(s, t[..|t| - 1]);
    }
  }

  lemma {:induction false} ActsOfCalls(sent: seq<BrowserRequest>, lo: nat, hi: nat)
    requires lo < hi <= |sent| && hi <= lo + 2
    requires hi == lo + 2 ==> !sent[lo + 1].verb.Act?
    ensures ActsSent(sent[lo..hi]) == if sent[lo].verb.Act? then [sent[lo].params] else []
  {
    var calls := sent[lo..hi];
    assert ActsSent(calls[..0]) == [];
    if hi == lo + 2 {
      assert calls[..1] == [sent[lo]] && calls[1] == sent[lo + 1];
      assert calls[..1][..0] == [];
    }
  }

  function ActsOf(r: BrowserLoopIteration): seq<Json> {
    match ActionOf(r)
    case Some(action) => [action]
    case None => []
  }

  lemma {:induction false} ActsOfExplained(world: World, request: BrowserLoopRequest, sent: seq<BrowserRequest>,
                                           lo: nat, hi: nat, question: nat, before: BrowserObservation,
                                           earlier: seq<BrowserLoopIteration>, r: BrowserLoopIteration,
                                           after: BrowserObservation)
    requires Explains(world, request, sent, lo, hi, question, before, earlier, r, after)
    ensures ActsSent(sent[lo..hi]) == ActsOf(r)
  {
    ActsOfCalls(sent, lo, hi);
  }

  lemma {:induction false} ActsOfOneRecord(world: World, request: BrowserLoopRequest, start: Origin, m: Machine, k: nat)
    requires ExplainedAt(world, request, start, m, k)
    ensures m.cuts[k] < m.cuts[k + 1] <= |m.wire.sent|
    ensures ActsSent(m.wire.sent[m.cuts[k]..m.cuts[k + 1]]) == ActsOf(m.records[k])
  {
    ActsOfExplained(world, request, m.wire.sent, m.cuts[k], m.cuts[k + 1], |start.asked| + k,
                    m.views[k], m.records[..k], m.records[k], m.views[k + 1]);
  }

  lemma {:induction false} AppendActs(sent: seq<BrowserRequest>, base: nat, lo: nat, hi: nat)
    requires base <= lo <= hi <= |sent|
    ensures ActsSent(sent[base..hi]) == ActsSent(sent[base..lo]) + ActsSent(sent[lo..hi])
  {
    assert sent[base..hi] == sent[base..lo] + sent[lo..hi];
    ActsSentConcat(sent[base..lo], sent[lo..hi]);
  }

  lemma {:induction false} ActsOfPreamble(world: World, request: BrowserLoopRequest, sent: seq<BrowserRequest>,
                                          base: nat, first: BrowserObservation)
    requires Opening(world, request, sent, base, first)
    ensures ActsSent(sent[base..base + Preamble(request)]) == []
  {
    var calls := sent[base..base + Preamble(request)];
    assert ActsSent(calls[..0]) == [];
    if request.initialUrl.Some? {
      assert calls[..1] == [sent[base]] && calls[1] == sent[base + 1];
      assert calls[..1][..0] == [];
    }
  }

  lemma {:induction false} RecordedStep(rs: seq<BrowserLoopIteration>, k: nat)
    requires 0 < k <= |rs|
    ensures ActsRecorded(rs[..k]) == ActsRecorded(rs[..k - 1]) + ActsOf(rs[k - 1])
  {
    assert rs[..k][..k - 1] == rs[..k - 1];
  }

  lemma {:induction false} ActsUpTo(world: World, request: BrowserLoopRequest, start: Origin, m: Machine, k: nat)
    requires Faithful(world, request, start, m) && k <= |m.records|
    ensures |start.wire.sent| <= m.cuts[k] <= |m.wire.sent|
    ensures ActsSent(m.wire.sent[|start.wire.sent|..m.cuts[k]]) == ActsRecorded(m.records[..k])
  {
    var base, sent := |start.wire.sent|, m.wire.sent;
    if k == 0 {
      ActsOfPreamble(world, request, sent, base, m.views[0]);
    } else {
      ActsUpTo(world, request, start, m, k - 1);
      ActsOfOneRecord(world, request, start, m, k - 1);
      AppendActs(sent, base, m.cuts[k - 1], m.cuts[k]);
      RecordedStep(m.records, k);
    }
  }

  predicate CarriesTarget(action: Json, targetId: string) {
    && action.JObject?
    && "target_id" in action.fields && action.fields["target_id"] == JString(targetId)
    && "snapshot_after" in action.fields
  }

  /** The action that the planner decided on last, as it goes out. */
  predicate LastDecided(world: World, request: BrowserLoopRequest, start: Origin, s: Machine, action: Json) {
    var decision := Decision(world, request, start, s);
    && decision.Ok? && decision.value.DecideAct?
    && NormalizedAction(decision.value.action, request.targetId) == Ok(action)
  }

  /** The actions are those of the records shown, the refused one included; only a run that failed in the middle of an
      iteration may have sent one more, which is the one the planner decided on last. */
  ghost predicate ActsAccounted(world: World, request: BrowserLoopRequest, start: Origin, o: Outcome, acts: seq<Json>)
    requires !o.Unstarted? && start.seen <= o.state.seen
  {
    var shown := ActsRecorded(o.state.seen[|start.seen|..]);
    || acts == shown
    || (&& o.Failed? && o.state.seen == start.seen + o.state.records
        && acts != [] && acts[..|acts| - 1] == shown
        && LastDecided(world, request, start, o.state, acts[|acts| - 1]))
  }

  /** The actions sent since the start are those the records name, and they are addressed to the target. */
  ghost predicate ActsMatch(world: World, request: BrowserLoopRequest, start: Origin, o: Outcome) {
    !o.Unstarted? &&
    var sent, rs := o.state.wire.sent, o.state.records;
    && start.wire.sent <= sent && start.seen + rs <= o.state.seen
    && (o.Stopped? ==> ActsSent(sent[|start.wire.sent|..]) == ActsRecorded(rs))
    && ActsAccounted(world, request, start, o, ActsSent(sent[|start.wire.sent|..]))
    && AllCarryTarget(rs, request.targetId)
  }

  predicate AllCarryTarget(rs: seq<BrowserLoopIteration>, targetId: string) {
    forall k :: 0 <= k < |rs| && ActionOf(rs[k]).Some? ==> CarriesTarget(ActionOf(rs[k]).value, targetId)
  }

  lemma {:induction false} RecordCarriesTarget(world: World, request: BrowserLoopRequest, start: Origin, m: Machine,
                                               k: nat)
    requires ExplainedAt(world, request, start, m, k) && ActionOf(m.records[k]).Some?
    ensures CarriesTarget(ActionOf(m.records[k]).value, request.targetId)
  {
  }

  lemma {:induction false} RecordsCarryTarget(world: World, request: BrowserLoopRequest, start: Origin, m: Machine)
    requires Faithful(world, request, start, m)
    ensures AllCarryTarget(m.records, request.targetId)
  {
    var rs := m.records;
    forall k | 0 <= k < |rs| && ActionOf(rs[k]).Some? ensures CarriesTarget(ActionOf(rs[k]).value, request.targetId) {
      assert ExplainedAt(world, request, start, m, k);
      RecordCarriesTarget(world, request, start, m, k);
    }
  }

  /** The actions sent since the last record of a failed run. */
  lemma {:induction false} ActsOfFailure(world: World, request: BrowserLoopRequest, start: Origin, s: Machine,
                                         error: BrowserAutomationError)
    requires FailureExplained(world, request, start, s, error)
    ensures var extra := ActsSent(s.wire.sent[s.cuts[|s.records|]..]);
            if |s.seen| == |start.seen| + |s.records| then
              extra == [] || (|extra| == 1 && LastDecided(world, request, start, s, extra[0]))
            else |s.seen| == |start.seen| + |s.records| + 1 && extra == ActsOf(s.seen[|s.seen| - 1])
  {
    var lo, hi := s.cuts[|s.records|], |s.wire.sent|;
    assert s.wire.sent[lo..] == s.wire.sent[lo..hi];
    if |s.seen| != |start.seen| + |s.records| {
      var after :| RefusedLeadingTo(world, request, start, s, after);
      ActsOfExplained(world, request, s.wire.sent, lo, hi, |start.asked| + |s.records|, s.View(), s.records,
                      s.seen[|s.seen| - 1], after);
    } else if hi > lo {
      ActsOfCalls(s.wire.sent, lo, hi);
    }
  }

  lemma {:induction false} ActsOfShown(before: seq<BrowserLoopIteration>, rs: seq<BrowserLoopIteration>,
                                       seen: seq<BrowserLoopIteration>)
    requires before + rs <= seen && |seen| <= |before + rs| + 1
    ensures |seen| == |before + rs| ==> seen == before + rs && seen[|before|..] == rs
    ensures |seen| > |before + rs| ==> ActsRecorded(seen[|before|..]) == ActsRecorded(rs) + ActsOf(seen[|seen| - 1])
  {
    if |seen| > |before + rs| {
      var shown := seen[|before|..];
      assert shown[..|shown| - 1] == rs;
    }
  }

  lemma {:induction false} FailedActsAccounted(world: World, request: BrowserLoopRequest, start: Origin, o: Outcome,
                                               acts: seq<Json>)
    requires o.Failed? && FailureExplained(world, request, start, o.state, o.error)
    requires acts == ActsRecorded(o.state.records) + ActsSent(o.state.wire.sent[o.state.cuts[|o.state.records|]..])
    ensures start.seen <= o.state.seen && ActsAccounted(world, request, start, o, acts)
  {
    ActsOfFailure(world, request, start, o.state, o.error);
    ActsOfShown(start.seen, o.state.records, o.state.seen);
  }

  lemma {:induction false} ActsSentInAll(world: World, request: BrowserLoopRequest, start: Origin, m: Machine)
    requires Faithful(world, request, start, m)
    ensures ActsSent(m.wire.sent[|start.wire.sent|..])
            == ActsRecorded(m.records) + ActsSent(m.wire.sent[m.cuts[|m.records|]..])
  {
    assert |m.cuts| == |m.records| + 1;
    ActsUpTo(world, request, start, m, |m.records|);
    SplitActs(m.wire.sent, |start.wire.sent|, m.cuts[|m.records|], m.records);
  }

  lemma {:induction false} SplitActs(sent: seq<BrowserRequest>, base: nat, lo: nat, rs: seq<BrowserLoopIteration>)
    requires base <= lo <= |sent| && ActsSent(sent[base..lo]) == ActsRecorded(rs[..|rs|])
    ensures ActsSent(sent[base..]) == ActsRecorded(rs) + ActsSent(sent[lo..])
  {
    assert rs[..|rs|] == rs;
    AppendActs(sent, base, lo, |sent|);
    assert sent[base..|sent|] == sent[base..] && sent[lo..|sent|] == sent[lo..];
  }

  lemma {:induction false} EndedActsMatch(world: World, request: BrowserLoopRequest, start: Origin, o: Outcome)
    requires Ended(world, request, start, o)
    ensures ActsMatch(world, request, start, o)
  {
    var m := o.state;
    ActsSentInAll(world, request, start, m);
    RecordsCarryTarget(world, request, start, m);
    if o.Stopped? {
      assert m.wire.sent[m.cuts[|m.records|]..] == [];
      ActsOfShown(start.seen, m.records, m.seen);
    } else {
      FailedActsAccounted(world, request, start, o, ActsSent(m.wire.sent[|start.wire.sent|..]));
    }
  }

  /** The actions sent during a successful run are, in order, exactly those its records name, and each carries the
      target of the request and says whether a snapshot is wanted. A failed run sent those too, then the action of the
      record the observer refused, or at most the one the planner decided on last. */
  lemma {:induction false} ActsAreRecorded(world: World, request: BrowserLoopRequest, start: Origin)
    ensures var o := Run(world, request, start); o.Unstarted? || ActsMatch(world, request, start, o)
  {
    TrailIsFaithful(world, request, start);
    var o := Run(world, request, start);
    if !o.Unstarted? {
      EndedActsMatch(world, request, start, o);
    }
  }
}
