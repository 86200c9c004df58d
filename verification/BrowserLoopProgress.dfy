/** When a run stops, and that its request ids never repeat. */
module BrowserLoopProgress {
  import opened Wrappers
  import opened Json
  import opened BrowserTypes
  import opened BrowserClient
  import opened BrowserLoopSpec

  // --- the trailing streak of unchanged pages ---

  /** The records that count: all but the two kinds of stale-reference record. */
  function Counting(rs: seq<BrowserLoopIteration>): seq<BrowserLoopIteration> {
    if rs == [] then []
    else
      var last := rs[|rs| - 1];
      Counting(rs[..|rs| - 1]) + (if StaleRecord(last) then [] else [last])
  }

  /** `n` is the length of the longest run of unchanged records at the end of the counting ones. */
  ghost predicate TrailingStreak(rs: seq<BrowserLoopIteration>, n: nat) {
    var counting := Counting(rs);
    && n <= |counting|
    && (forall i :: |counting| - n <= i < |counting| ==> Unchanged(counting[i]))
    && (n < |counting| ==> !Unchanged(counting[|counting| - n - 1]))
  }

  function Streak(rs: seq<BrowserLoopIteration>): nat {
    if rs == [] then 0
    else
      var last, before := rs[|rs| - 1], Streak(rs[..|rs| - 1]);
      if StaleRecord(last) then before
      else if Unchanged(last) then before + 1
      else 0
  }

  lemma {:induction false} StreakIsTrailing(rs: seq<BrowserLoopIteration>)
    ensures TrailingStreak(rs, Streak(rs))
    ensures forall n: nat :: TrailingStreak(rs, n) ==> n == Streak(rs)
  {
    if rs != [] {
      StreakIsTrailing(rs[..|rs| - 1]);
    }
    forall n: nat | TrailingStreak(rs, n) ensures n == Streak(rs) {
      OneStreak(rs, n, Streak(rs));
    }
  }

  lemma {:induction false} OneStreak(rs: seq<BrowserLoopIteration>, m: nat, n: nat)
    requires TrailingStreak(rs, m) && TrailingStreak(rs, n)
    ensures m == n
  {
  }

  /** The streak stayed below the limit up to and including the first `n` records. */
  ghost predicate BelowLimit(rs: seq<BrowserLoopIteration>, n: int) {
    forall j :: 0 <= j <= n && j <= |rs| ==> StreakAt(rs, j) < 2
  }

  function StreakAt(rs: seq<BrowserLoopIteration>, j: nat): nat
    requires j <= |rs|
  {
    Streak(rs[..j])
  }

  /** The counter of the loop is the streak of its records, which never reached the limit before now. */
  ghost predicate Counts(m: Machine) {
    m.stalled == Streak(m.records) && BelowLimit(m.records, |m.records| - 1)
  }

  /** How a turn taken after `n` records relates counter, records and stop reason. */
  ghost predicate TurnCounts(n: nat, o: Outcome) {
    match o
    case Running(s) => Counts(s) && Streak(s.records) < 2 && |s.records| == n + 1
    case Stopped(s, reason, _) => StopCounts(s, reason) && !reason.IterationLimit?
                                  && |s.records| == (if OfNoProgress(reason) then n + 1 else n)
    case Failed(s, _) => BelowLimit(s.records, |s.records|) && |s.records| == n
    case Unstarted(_, _) => false
  }

  predicate OfNoProgress(reason: StopReason) {
    reason.RepeatedErrors? || reason.RepeatedNoProgress?
  }

  predicate EndsWith(rs: seq<BrowserLoopIteration>, status: IterationStatus) {
    rs != [] && rs[|rs| - 1].status == status
  }

  /** A no-progress stop is given exactly when the streak reaches the limit, and names the last record's kind. */
  ghost predicate StopCounts(s: Machine, reason: StopReason) {
    && Counts(s)
    && (OfNoProgress(reason) <==> Streak(s.records) == 2)
    && (reason.RepeatedErrors? ==> EndsWith(s.records, ActionErrorRecovered))
    && (reason.RepeatedNoProgress? ==> EndsWith(s.records, NoProgress))
  }

  lemma {:induction false} AppendCounts(rs: seq<BrowserLoopIteration>, r: BrowserLoopIteration)
    requires BelowLimit(rs, |rs|)
    ensures Streak(rs + [r]) == if StaleRecord(r) then Streak(rs) else if Unchanged(r) then Streak(rs) + 1 else 0
    ensures Streak(rs) < 2
    ensures BelowLimit(rs + [r], |rs|)
  {
    assert (rs + [r])[..|rs|] == rs;
    assert StreakAt(rs, |rs|) < 2 && rs[..|rs|] == rs;
    forall j | 0 <= j <= |rs| ensures StreakAt(rs + [r], j) < 2 {
      assert (rs + [r])[..j] == rs[..j];
      assert StreakAt(rs, j) < 2;
    }
  }

  /** Counter and records of a machine that may take a turn. */
  ghost predicate Ready(m: Machine) {
    m.stalled == Streak(m.records) && BelowLimit(m.records, |m.records|)
  }

  lemma {:induction false} ResnapshotCounts(world: World, target: string, m: Machine, iteration: nat, action: Json,
                                            expected: Option<string>, status: IterationStatus)
    requires Ready(m) && (status.StaleRefRejected? || status.StaleRefRecovered?)
    ensures TurnCounts(|m.records|, Resnapshot(world, target, m, iteration, action, expected, status))
  {
    var (wire, view) := TakeSnapshot(world, m.wire, target);
    if view.Ok? {
      AppendCounts(m.records, MakeRecord(iteration, m.View(), action, expected, view.value, status));
    }
  }

  lemma {:induction false} CountedCounts(world: World, m: Machine, iteration: nat, action: Json,
                                         expected: Option<string>, next: BrowserObservation, status: IterationStatus,
                                         reason: StopReason)
    requires Ready(m)
    requires if reason.RepeatedErrors? then status.ActionErrorRecovered?
             else reason.RepeatedNoProgress? && status == if Progressed(m.View(), next) then Observed else NoProgress
    ensures TurnCounts(|m.records|, StopIfStalled(Counted(world, m, iteration, action, expected, next, status), reason))
  {
    var record := MakeRecord(iteration, m.View(), action, expected, next, status);
    AppendCounts(m.records, record);
    var o := Counted(world, m, iteration, action, expected, next, status);
    if o.Running? {
      assert o.state.records == m.records + [record];
      assert o.state.stalled == Streak(o.state.records);
    }
  }

  lemma {:induction false} ActTurnCounts(world: World, target: string, m: Machine, iteration: nat, action: Json,
                                         expected: Option<string>)
    requires Ready(m)
    ensures TurnCounts(|m.records|, ActTurn(world, target, m, iteration, action, expected))
  {
    var (wire, response) := Exchange(world.transport, m.wire, Act, action);
    var m' := m.(wire := wire);
    match response
    case Err(_) =>
    case Ok(Success(_, false, _)) =>
    case Ok(Success(_, true, result)) =>
      var (wire, view) :=
        if result.GetString("snapshot").Some? then (m'.wire, world.observe(result, target))
        else TakeSnapshot(world, m'.wire, target);
      if view.Ok? {
        CountedCounts(world, m'.(wire := wire), iteration, action, expected, view.value,
                      if Progressed(m.View(), view.value) then Observed else NoProgress, RepeatedNoProgress);
      }
    case Ok(Error(_, _, error)) =>
      if StaleRefError(error) {
        ResnapshotCounts(world, target, m', iteration, action, expected, StaleRefRecovered);
      } else if RecoverableSidecarActionError(error) {
        var (wire, view) := TakeSnapshot(world, m'.wire, target);
        if view.Ok? {
          CountedCounts(world, m'.(wire := wire), iteration, ActionErrorNote(error, action), expected, view.value,
                        ActionErrorRecovered, RepeatedErrors);
        }
      }
  }

  lemma {:induction false} TurnKeepsCount(world: World, request: BrowserLoopRequest, m: Machine, iteration: nat)
    requires Ready(m)
    ensures TurnCounts(|m.records|, Turn(world, request, m, iteration))
  {
    var call := Ask(request, m);
    var m' := m.(asked := m.asked + [call]);
    assert Streak(m.records) < 2 by {
      assert m.records[..|m.records|] == m.records;
      assert StreakAt(m.records, |m.records|) < 2;
    }
    match world.planner(|m.asked|, call)
    case Err(error) =>
      if world.recoverable(error) {
        ResnapshotCounts(world, request.targetId, m', iteration, PlannerErrorNote(error), Some(RetryHint(error)),
                         StaleRefRejected);
      }
    case Ok(DecideComplete(_)) =>
    case Ok(DecideBlocked(_)) =>
    case Ok(DecideAct(action, expected)) =>
      match NormalizedAction(action, request.targetId)
      case Err(_) =>
      case Ok(action) => ActTurnCounts(world, request.targetId, m', iteration, action, expected);
  }

  /** What the counters say when the loop is left. */
  ghost predicate EndCounts(maxIterations: nat, o: Outcome) {
    match o
    case Running(_) | Unstarted(_, _) => false
    case Stopped(s, reason, _) =>
      && StopCounts(s, reason)
      && |s.records| <= maxIterations
      && (reason.IterationLimit? <==> |s.records| == maxIterations && Streak(s.records) < 2)
    case Failed(s, _) => BelowLimit(s.records, |s.records|) && |s.records| < maxIterations
  }

  ghost predicate ReadyAt(m: Machine, iteration: nat) {
    Ready(m) && iteration == |m.records| + 1
  }

  lemma {:induction false} TurnStaysReady(world: World, request: BrowserLoopRequest, m: Machine, iteration: nat)
    requires ReadyAt(m, iteration) && iteration <= request.maxIterations
    ensures var o := TurnOf(world, request)(m, iteration);
            if o.Running? then ReadyAt(o.state, iteration + 1) else EndCounts(request.maxIterations, o)
  {
    TurnKeepsCount(world, request, m, iteration);
    var o := Turn(world, request, m, iteration);
    if o.Running? {
      assert o.state.records[..|o.state.records|] == o.state.records;
    }
  }

  lemma {:induction false} LimitCounts(maxIterations: nat, m: Machine)
    requires ReadyAt(m, maxIterations + 1)
    ensures EndCounts(maxIterations, Stopped(m, IterationLimit, BlockedOutput(IterationLimit)))
  {
    assert m.records[..|m.records|] == m.records;
    assert StreakAt(m.records, |m.records|) < 2;
  }

  lemma {:induction false} RunFromCounts(world: World, request: BrowserLoopRequest, m: Machine)
    requires ReadyAt(m, 1)
    ensures EndCounts(request.maxIterations, RunFrom(TurnOf(world, request), request.maxIterations, m, 1))
  {
    var turn := TurnOf(world, request);
    var limit: nat := request.maxIterations;
    var inv := (s: Machine, i: nat) => ReadyAt(s, i);
    var ended := (o: Outcome) => EndCounts(limit, o);
    forall s: Machine, i: nat | inv(s, i) && i <= limit ensures Leads(turn(s, i), i, inv, ended) {
      TurnStaysReady(world, request, s, i);
    }
    forall s: Machine | inv(s, limit + 1) ensures ended(Stopped(s, IterationLimit, BlockedOutput(IterationLimit))) {
      LimitCounts(limit, s);
    }
    RunInduction(turn, limit, m, 1, inv, ended);
  }

  lemma {:induction false} BeginCounts(world: World, request: BrowserLoopRequest, start: Origin)
    ensures var o := Begin(world, request, start); o.Unstarted? || EndCounts(request.maxIterations, o)
  {
    var (wire, view) := TakeSnapshot(world, start.wire, request.targetId);
    if view.Ok? {
      RunFromCounts(world, request, FirstState(start, wire, view.value));
    }
  }

  /** In every run the no-progress stop is given exactly when the trailing streak of unchanged records first
      reaches two, and the iteration limit exactly when all iterations were recorded and no stop fired before. */
  lemma {:induction false} StopsAreExact(world: World, request: BrowserLoopRequest, start: Origin)
    ensures var o := Run(world, request, start); o.Unstarted? || EndCounts(request.maxIterations, o)
  {
    match request.initialUrl
    case None => BeginCounts(world, request, start);
    case Some(url) =>
      var (wire, _) := Invoke(world.transport, start.wire, Open, OpenParams(url, request.targetId));
      BeginCounts(world, request, start.(wire := wire));
  }

  // --- request ids ---

  /** The wire has sent consecutive ids since position `base`, at most `extra` of them after `w`. */
  ghost predicate Continues(w: Wire, w': Wire, extra: nat) {
    && w.sent <= w'.sent && |w'.sent| <= |w.sent| + extra
    && ConsecutiveIds(w'.sent, |w.sent|, w.nextId)
    && w'.nextId == Advance(w.nextId, |w'.sent| - |w.sent|)
  }

  lemma {:induction false} ContinuesTwice(w: Wire, w': Wire, w'': Wire, a: nat, b: nat)
    requires Continues(w, w', a) && Continues(w', w'', b)
    ensures Continues(w, w'', a + b)
  {
    var base, first, mid := |w.sent|, w.nextId, |w'.sent|;
    forall i | base <= i < |w''.sent| ensures w''.sent[i].id == RequestId(Advance(first, i - base)) {
      if i < mid {
        assert w''.sent[i] == w'.sent[i];
      } else {
        AdvanceTwice(first, mid - base, i - mid);
      }
    }
    AdvanceTwice(first, mid - base, |w''.sent| - mid);
  }

  lemma {:induction false} ExchangeContinues(world: World, wire: Wire, verb: BrowserMethod, params: Json)
    ensures Continues(wire, Exchange(world.transport, wire, verb, params).0, 1)
  {
  }

  lemma {:induction false} SnapshotContinues(world: World, wire: Wire, target: string)
    ensures Continues(wire, TakeSnapshot(world, wire, target).0, 1)
  {
    ExchangeContinues(world, wire, Snapshot, SnapshotParams(target));
  }

  /** The outcome's wire continues `w` by at most `extra` requests. */
  ghost predicate SendsAtMost(w: Wire, extra: nat, o: Outcome) {
    !o.Unstarted? && Continues(w, o.state.wire, extra)
  }

  lemma {:induction false} SendsAfter(w: Wire, w': Wire, a: nat, b: nat, o: Outcome)
    requires Continues(w, w', a) && SendsAtMost(w', b, o)
    ensures SendsAtMost(w, a + b, o)
  {
    ContinuesTwice(w, w', o.state.wire, a, b);
  }

  lemma {:induction false} ResnapshotContinues(world: World, target: string, m: Machine, iteration: nat, action: Json,
                                               expected: Option<string>, status: IterationStatus)
    ensures SendsAtMost(m.wire, 1, Resnapshot(world, target, m, iteration, action, expected, status))
  {
    SnapshotContinues(world, m.wire, target);
  }

  lemma {:induction false} AfterActionErrorContinues(world: World, target: string, m: Machine, iteration: nat,
                                                     action: Json, expected: Option<string>, error: BrowserSidecarError)
    ensures SendsAtMost(m.wire, 1, AfterActionError(world, target, m, iteration, action, expected, error))
  {
    SnapshotContinues(world, m.wire, target);
  }

  lemma {:induction false} AfterActionSuccessContinues(world: World, target: string, m: Machine, iteration: nat,
                                                       action: Json, expected: Option<string>, result: Json)
    ensures SendsAtMost(m.wire, 1, AfterActionSuccess(world, target, m, iteration, action, expected, result))
  {
    SnapshotContinues(world, m.wire, target);
  }

  lemma {:induction false} ActTurnContinues(world: World, target: string, m: Machine, iteration: nat, action: Json,
                                            expected: Option<string>)
    ensures SendsAtMost(m.wire, 2, ActTurn(world, target, m, iteration, action, expected))
  {
    var (wire, response) := Exchange(world.transport, m.wire, Act, action);
    var m', o := m.(wire := wire), ActTurn(world, target, m, iteration, action, expected);
    ExchangeContinues(world, m.wire, Act, action);
    match response
    case Ok(Success(_, true, result)) =>
      AfterActionSuccessContinues(world, target, m', iteration, action, expected, result);
      SendsAfter(m.wire, wire, 1, 1, o);
    case Ok(Error(_, _, error)) =>
      if StaleRefError(error) {
        ResnapshotContinues(world, target, m', iteration, action, expected, StaleRefRecovered);
        SendsAfter(m.wire, wire, 1, 1, o);
      } else if RecoverableSidecarActionError(error) {
        AfterActionErrorContinues(world, target, m', iteration, action, expected, error);
        SendsAfter(m.wire, wire, 1, 1, o);
      }
    case _ =>
  }

  lemma {:induction false} TurnContinues(world: World, request: BrowserLoopRequest, m: Machine, iteration: nat)
    ensures SendsAtMost(m.wire, 2, Turn(world, request, m, iteration))
  {
    var call := Ask(request, m);
    var m' := m.(asked := m.asked + [call]);
    match world.planner(|m.asked|, call)
    case Err(error) =>
      if world.recoverable(error) {
        ResnapshotContinues(world, request.targetId, m', iteration, PlannerErrorNote(error), Some(RetryHint(error)),
                            StaleRefRejected);
      }
    case Ok(DecideComplete(_)) =>
    case Ok(DecideBlocked(_)) =>
    case Ok(DecideAct(action, expected)) =>
      match NormalizedAction(action, request.targetId)
      case Err(_) =>
      case Ok(action) => ActTurnContinues(world, request.targetId, m', iteration, action, expected);
  }

  /** All that has been sent since `w` continues its numbering, two requests per iteration at most. */
  ghost predicate NumberedSince(w: Wire, m: Machine, iteration: nat) {
    iteration >= 1 && Continues(w, m.wire, 2 * (iteration - 1))
  }

  lemma {:induction false} TurnStaysNumbered(world: World, request: BrowserLoopRequest, w: Wire, m: Machine,
                                             iteration: nat)
    requires NumberedSince(w, m, iteration)
    ensures var o := TurnOf(world, request)(m, iteration);
            SendsAtMost(w, 2 * iteration, o) && (o.Running? ==> NumberedSince(w, o.state, iteration + 1))
  {
    TurnContinues(world, request, m, iteration);
    SendsAfter(w, m.wire, 2 * (iteration - 1), 2, TurnOf(world, request)(m, iteration));
  }

  lemma {:induction false} NumberedToTheEnd(w: Wire, i: nat, limit: nat, o: Outcome)
    requires i <= limit && SendsAtMost(w, 2 * i, o)
    ensures SendsAtMost(w, 2 * limit, o)
  {
  }

  lemma {:induction false} RunFromContinues(world: World, request: BrowserLoopRequest, m: Machine)
    ensures SendsAtMost(m.wire, 2 * request.maxIterations, RunFrom(TurnOf(world, request), request.maxIterations, m, 1))
  {
    var turn, w := TurnOf(world, request), m.wire;
    var limit: nat := request.maxIterations;
    var inv := (s: Machine, i: nat) => NumberedSince(w, s, i);
    var ended := (o: Outcome) => SendsAtMost(w, 2 * limit, o);
    forall s: Machine, i: nat | inv(s, i) && i <= limit ensures Leads(turn(s, i), i, inv, ended) {
      TurnStaysNumbered(world, request, w, s, i);
      NumberedToTheEnd(w, i, limit, turn(s, i));
    }
    RunInduction(turn, limit, m, 1, inv, ended);
  }

  lemma {:induction false} BeginContinues(world: World, request: BrowserLoopRequest, start: Origin)
    ensures Continues(start.wire, Aftermath(start, Begin(world, request, start)).wire, 1 + 2 * request.maxIterations)
  {
    var (wire, view) := TakeSnapshot(world, start.wire, request.targetId);
    SnapshotContinues(world, start.wire, request.targetId);
    if view.Ok? {
      var m := FirstState(start, wire, view.value);
      RunFromContinues(world, request, m);
      ContinuesTwice(start.wire, wire, RunFrom(TurnOf(world, request), request.maxIterations, m, 1).state.wire,
                     1, 2 * request.maxIterations);
    }
  }

  /** The ids of a run are consecutive and no two of them print alike: a run sends at most two requests per
      iteration after the preamble, far fewer than the counter can number. */
  lemma {:induction false} IdsNeverRepeat(world: World, request: BrowserLoopRequest, start: Origin)
    ensures var sent := Aftermath(start, Run(world, request, start)).wire.sent;
            && start.wire.sent <= sent && |sent| <= |start.wire.sent| + 2 + 2 * request.maxIterations
            && ConsecutiveIds(sent, |start.wire.sent|, start.wire.nextId)
            && DistinctIds(sent, |start.wire.sent|)
  {
    var last := Aftermath(start, Run(world, request, start)).wire;
    match request.initialUrl {
      case None => BeginContinues(world, request, start);
      case Some(url) =>
        var params := OpenParams(url, request.targetId);
        var (wire, landing) := Invoke(world.transport, start.wire, Open, params);
        ExchangeContinues(world, start.wire, Open, params);
        if landing.Ok? {
          BeginContinues(world, request, start.(wire := wire));
          ContinuesTwice(start.wire, wire, last, 1, 1 + 2 * request.maxIterations);
        }
    }
    IdsDistinctUntilWrap(last.sent, |start.wire.sent|, start.wire.nextId);
  }
}
