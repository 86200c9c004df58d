/** Reducing the events of a turn to one status: what the loop over the sorted events computes. */
module TurnReducer {
  import opened Wrappers
  import opened Json
  import opened Text
  import opened Ordering
  import opened Selection

  datatype EventKind =
    | Done | Error | Cancelled | Suspended
    | Activity | PlanUpdate | StepAdvance | Heartbeat
    | OtherKind(name: string)

  /** A list or an object as wake kind cannot be looked up in a Python set: the lookup raises. */
  datatype Wake = WakeApproval | WakeUser | WakeUnhashable

  /** All that the reducer looks at in a parsed payload. */
  datatype Payload = Payload(text: Option<string>, wake: Wake)

  /** The visible text is a string that is not blank, stripped; the wake kind asks for approval or for the user. */
  function ReadPayload(json: Json): (p: Payload)
    ensures p.text.Some? <==> json.GetString("text").Some? && !Blank(json.GetString("text").value)
    ensures p.text.Some? ==> p.text.value == Strip(json.GetString("text").value)
    ensures p.wake.WakeApproval? <==>
              || json.GetString("wake_kind") == Some("approval")
              || json.GetString("wake_kind") == Some("effect_resolution")
    ensures p.wake.WakeUnhashable? <==>
              && json.Get("wake_kind").Some?
              && (json.Get("wake_kind").value.JArray? || json.Get("wake_kind").value.JObject?)
  {
    Payload(
      match json.GetString("text")
      case Some(text) => (StripKeepsInk(text); if Strip(text) != "" then Some(Strip(text)) else None)
      case None => None,
      match json.Get("wake_kind")
      case Some(JString(wake)) => if wake == "approval" || wake == "effect_resolution" then WakeApproval else WakeUser
      case Some(JArray(_)) => WakeUnhashable
      case Some(JObject(_)) => WakeUnhashable
      case _ => WakeUser)
  }

  /** A row of `turn_events`, its payload parsed. */
  datatype TurnEvent = TurnEvent(number: int, eventId: int, kind: EventKind, json: Json) {
    function Payload(): Payload {
      ReadPayload(json)
    }
  }

  datatype ReducedStatus = StatusEmpty | StatusRunning | WaitingApproval | WaitingUser
                         | StatusCompleted | StatusFailed | StatusCancelled

  /** One reported contradiction, with the values its detail text mentions. */
  datatype Contradiction =
    | MultipleTerminalEvents(kind: EventKind, number: int, terminalKind: EventKind, terminalNumber: int)
    | EventAfterTerminal(kind: EventKind, number: int)
    | FailedTerminalMissingText

  datatype Reduction =
    Reduction(
      status: ReducedStatus,
      terminalNumber: Option<int>,
      terminalKind: Option<EventKind>,
      failureText: Option<string>,
      lastNumber: int,
      contradictions: seq<Contradiction>)

  const NoPayload := JObject(map[])

  // --- single events ---

  predicate Terminal(e: TurnEvent) {
    e.kind.Done? || e.kind.Error? || e.kind.Cancelled?
  }

  predicate ActiveAfterTerminal(e: TurnEvent) {
    e.kind.Activity? || e.kind.PlanUpdate? || e.kind.StepAdvance? || e.kind.Heartbeat?
  }

  function TerminalStatus(kind: EventKind): ReducedStatus {
    match kind
    case Done => StatusCompleted
    case Error => StatusFailed
    case _ => StatusCancelled
  }

  function FailureText(e: TurnEvent): Option<string> {
    if e.kind.Error? then e.Payload().text else None
  }

  predicate RaisesOn(e: TurnEvent) {
    e.kind.Suspended? && e.Payload().wake.WakeUnhashable?
  }

  function WaitingStatus(e: TurnEvent): ReducedStatus {
    if e.Payload().wake.WakeApproval? then WaitingApproval else WaitingUser
  }

  // --- what the reduction of a sorted list of events means ---

  function FirstTerminal(es: seq<TurnEvent>): (t: nat)
    ensures t <= |es|
    ensures forall i :: 0 <= i < t ==> !Terminal(es[i])
    ensures t < |es| ==> Terminal(es[t])
  {
    if es == [] || Terminal(es[0]) then 0 else 1 + FirstTerminal(es[1..])
  }

  /** One past the last suspended event, or zero. */
  function AfterLastSuspended(es: seq<TurnEvent>): (n: nat)
    ensures n <= |es|
    ensures n > 0 ==> es[n - 1].kind.Suspended?
    ensures forall i :: n <= i < |es| ==> !es[i].kind.Suspended?
  {
    if es == [] || es[|es| - 1].kind.Suspended? then |es| else AfterLastSuspended(es[..|es| - 1])
  }

  /** The contradiction that one event after the terminal event of this kind and number gives rise to. */
  function LateContradiction(kind: EventKind, number: int, e: TurnEvent): seq<Contradiction> {
    if Terminal(e) then [MultipleTerminalEvents(e.kind, e.number, kind, number)]
    else if ActiveAfterTerminal(e) then [EventAfterTerminal(e.kind, e.number)]
    else []
  }

  function LateContradictions(terminal: TurnEvent, es: seq<TurnEvent>): seq<Contradiction> {
    if es == [] then []
    else LateContradictions(terminal, es[..|es| - 1]) + LateContradiction(terminal.kind, terminal.number, es[|es| - 1])
  }

  function LastNumber(es: seq<TurnEvent>): int {
    if es == [] then 0 else es[|es| - 1].number
  }

  /** The first terminal event fixes status and texts; without one the last suspension does; without either the
      turn is running, unless nothing happened at all. */
  function Summary(es: seq<TurnEvent>): Reduction {
    var t := FirstTerminal(es);
    if t < |es| then
      var terminal := es[t];
      Reduction(TerminalStatus(terminal.kind), Some(terminal.number), Some(terminal.kind), FailureText(terminal),
                LastNumber(es),
                (if terminal.kind.Error? && FailureText(terminal).None? then [FailedTerminalMissingText] else [])
                + LateContradictions(terminal, es[t + 1..]))
    else
      var n := AfterLastSuspended(es);
      Reduction(if n > 0 then WaitingStatus(es[n - 1]) else if es == [] then StatusEmpty else StatusRunning,
                None, None, None, LastNumber(es), [])
  }

  /** The reduction raises exactly when a suspension before the first terminal event has an unhashable wake kind. */
  predicate Raises(es: seq<TurnEvent>) {
    exists i :: 0 <= i < FirstTerminal(es) && RaisesOn(es[i])
  }

  // --- order ---

  predicate KeyLe(a: TurnEvent, b: TurnEvent) {
    a.number < b.number || (a.number == b.number && a.eventId <= b.eventId)
  }

  const KEY: (TurnEvent, TurnEvent) -> bool := (a: TurnEvent, b: TurnEvent) => KeyLe(a, b)

  lemma {:induction false} KeyIsPreorder()
    ensures TotalPreorder(KEY)
  {
  }

  /** No two different events share sequence number and event id. */
  ghost predicate IdentifiedByKey(es: seq<TurnEvent>) {
    forall i, j :: 0 <= i < j < |es| && es[i].number == es[j].number && es[i].eventId == es[j].eventId
      ==> es[i] == es[j]
  }

  function Ordered(es: seq<TurnEvent>): seq<TurnEvent> {
    SortBy(es, KEY)
  }

  /** The arrangement in which events are handed over does not matter as long as their keys identify them. */
  lemma {:induction false} ReductionForgetsOrder(a: seq<TurnEvent>, b: seq<TurnEvent>)
    requires multiset(a) == multiset(b) && IdentifiedByKey(a)
    ensures Summary(Ordered(a)) == Summary(Ordered(b)) && Raises(Ordered(a)) == Raises(Ordered(b))
  {
    KeyIsPreorder();
    SortForgetsOrder(a, b, KEY);
  }

  /** All arrangements of the events are ordered alike if and only if no two different events share their key. */
  lemma {:induction false} OrderForgottenExactly(es: seq<TurnEvent>)
    ensures SortedAlike(es, KEY) <==> IdentifiedByKey(es)
  {
    KeyIsPreorder();
    SortForgetsOrderExactly(es, KEY);
    assert KeysDistinct(es, KEY) <==> IdentifiedByKey(es);
  }

  /** So with equal keys it does matter: the same two events reduce to completed or to cancelled. */
  lemma {:induction false} EqualKeysKeepOrder()
    ensures var d, c := TurnEvent(1, 1, Done, NoPayload), TurnEvent(1, 1, Cancelled, NoPayload);
            && multiset([d, c]) == multiset([c, d])
            && Summary(Ordered([d, c])).status == StatusCompleted
            && Summary(Ordered([c, d])).status == StatusCancelled
  {
    var d, c := TurnEvent(1, 1, Done, NoPayload), TurnEvent(1, 1, Cancelled, NoPayload);
    PairKeepsOrder(d, c);
    PairKeepsOrder(c, d);
  }

  lemma {:induction false} PairKeepsOrder(x: TurnEvent, y: TurnEvent)
    requires x.number == y.number && x.eventId == y.eventId
    ensures Ordered([x, y]) == [x, y]
  {
    assert [x, y][..1] == [x] && [x][..0] == [];
    assert SortBy([x], KEY) == InsertSorted(SortBy([], KEY), x, KEY) == [x];
    assert SortBy([x, y], KEY) == InsertSorted([x], y, KEY);
  }

  // --- one event more ---

  /** The reduction continued by one event. */
  function Continue(r: Reduction, e: TurnEvent): Reduction {
    if r.terminalKind.Some? then
      r.(lastNumber := e.number,
         contradictions := r.contradictions + LateContradiction(r.terminalKind.value, r.terminalNumber.GetOr(0), e))
    else if Terminal(e) then
      Reduction(TerminalStatus(e.kind), Some(e.number), Some(e.kind), FailureText(e), e.number,
                r.contradictions
                + (if e.kind.Error? && FailureText(e).None? then [FailedTerminalMissingText] else []))
    else if e.kind.Suspended? then r.(status := WaitingStatus(e), lastNumber := e.number)
    else r.(status := if r.status == StatusEmpty then StatusRunning else r.status, lastNumber := e.number)
  }

  function ContinueAll(r: Reduction, es: seq<TurnEvent>): Reduction {
    if es == [] then r else Continue(ContinueAll(r, es[..|es| - 1]), es[|es| - 1])
  }

  lemma {:induction false} FirstTerminalAppend(es: seq<TurnEvent>, e: TurnEvent)
    ensures FirstTerminal(es + [e])
            == if FirstTerminal(es) < |es| then FirstTerminal(es) else if Terminal(e) then |es| else |es| + 1
  {
    if es == [] {
      assert es + [e] == [e];
    } else if !Terminal(es[0]) {
      assert (es + [e])[1..] == es[1..] + [e];
      FirstTerminalAppend(es[1..], e);
    }
  }

  lemma {:induction false} RaisesAppend(es: seq<TurnEvent>, e: TurnEvent)
    ensures Raises(es + [e]) <==> Raises(es) || (FirstTerminal(es) == |es| && RaisesOn(e))
  {
    var t, longer := FirstTerminal(es), es + [e];
    FirstTerminalAppend(es, e);
    assert forall i :: 0 <= i < t ==> longer[i] == es[i];
    if t == |es| && RaisesOn(e) {
      assert longer[t] == e;
    }
    if Raises(es) {
      var i :| 0 <= i < t && RaisesOn(es[i]);
      assert longer[i] == es[i];
    }
  }

  lemma {:induction false} LateAppend(terminal: TurnEvent, rest: seq<TurnEvent>, e: TurnEvent)
    ensures LateContradictions(terminal, rest + [e]) == LateContradictions(terminal, rest)
            + LateContradiction(terminal.kind, terminal.number, e)
  {
    assert (rest + [e])[..|rest|] == rest;
  }

  lemma {:induction false} SuspendedAppend(es: seq<TurnEvent>, e: TurnEvent)
    ensures AfterLastSuspended(es + [e]) == if e.kind.Suspended? then |es| + 1 else AfterLastSuspended(es)
  {
    assert (es + [e])[..|es|] == es;
  }

  lemma {:induction false} DropAppend(es: seq<TurnEvent>, e: TurnEvent, k: nat)
    requires k <= |es|
    ensures (es + [e])[k..] == es[k..] + [e]
  {
  }

  lemma {:induction false} SummaryAppendLate(es: seq<TurnEvent>, e: TurnEvent)
    requires FirstTerminal(es) < |es|
    ensures Summary(es + [e]) == Continue(Summary(es), e)
  {
    var t := FirstTerminal(es);
    FirstTerminalAppend(es, e);
    assert (es + [e])[t] == es[t] && LastNumber(es + [e]) == e.number;
    DropAppend(es, e, t + 1);
    LateAppend(es[t], es[t + 1..], e);
    Associate(if es[t].kind.Error? && FailureText(es[t]).None? then [FailedTerminalMissingText] else [],
              LateContradictions(es[t], es[t + 1..]), LateContradiction(es[t].kind, es[t].number, e));
  }

  lemma {:induction false} Associate(a: seq<Contradiction>, b: seq<Contradiction>, c: seq<Contradiction>)
    ensures (a + b) + c == a + (b + c)
  {
  }

  lemma {:induction false} SummaryAppendFirst(es: seq<TurnEvent>, e: TurnEvent)
    requires FirstTerminal(es) == |es| && Terminal(e)
    ensures Summary(es + [e]) == Continue(Summary(es), e)
  {
    FirstTerminalAppend(es, e);
    assert (es + [e])[|es| + 1..] == [];
  }

  lemma {:induction false} SummaryAppendQuiet(es: seq<TurnEvent>, e: TurnEvent)
    requires FirstTerminal(es) == |es| && !Terminal(e)
    ensures Summary(es + [e]) == Continue(Summary(es), e)
  {
    FirstTerminalAppend(es, e);
    SuspendedAppend(es, e);
    var n := AfterLastSuspended(es);
    assert n > 0 ==> (es + [e])[n - 1] == es[n - 1];
  }

  lemma {:induction false} SummaryAppend(es: seq<TurnEvent>, e: TurnEvent)
    ensures Summary(es + [e]) == Continue(Summary(es), e)
    ensures Raises(es + [e]) <==> Raises(es) || (FirstTerminal(es) == |es| && RaisesOn(e))
  {
    RaisesAppend(es, e);
    if FirstTerminal(es) < |es| {
      SummaryAppendLate(es, e);
    } else if Terminal(e) {
      SummaryAppendFirst(es, e);
    } else {
      SummaryAppendQuiet(es, e);
    }
  }

  /** Reducing a prefix and continuing with the rest gives the same as reducing everything at once. */
  lemma {:induction false} ReductionContinues(a: seq<TurnEvent>, b: seq<TurnEvent>)
    ensures Summary(a + b) == ContinueAll(Summary(a), b)
  {
    if b == [] {
      assert a + b == a;
    } else {
      var init, last := b[..|b| - 1], b[|b| - 1];
      ReductionContinues(a, init);
      SummaryAppend(a + init, last);
      assert (a + init) + [last] == a + b;
    }
  }

  lemma {:induction false} ContinueAfterTerminal(r: Reduction, terminal: TurnEvent, b: seq<TurnEvent>)
    requires r.terminalKind == Some(terminal.kind) && r.terminalNumber == Some(terminal.number)
    ensures ContinueAll(r, b)
            == r.(lastNumber := if b == [] then r.lastNumber else LastNumber(b),
                  contradictions := r.contradictions + LateContradictions(terminal, b))
  {
    if b != [] {
      ContinueAfterTerminal(r, terminal, b[..|b| - 1]);
    }
  }

  /** Once a terminal event is in, status, kind, number and failure text stay, and each later event adds its own
      contradiction and nothing else; nor can a later event raise. */
  lemma {:induction false} TerminalIsForGood(a: seq<TurnEvent>, b: seq<TurnEvent>)
    requires FirstTerminal(a) < |a|
    ensures var r, r' := Summary(a), Summary(a + b);
            && r'.status == r.status && r'.terminalKind == r.terminalKind
            && r'.terminalNumber == r.terminalNumber && r'.failureText == r.failureText
            && r'.contradictions == r.contradictions + LateContradictions(a[FirstTerminal(a)], b)
    ensures Raises(a + b) == Raises(a)
  {
    ReductionContinues(a, b);
    ContinueAfterTerminal(Summary(a), a[FirstTerminal(a)], b);
    TerminalStaysFirst(a, b);
    assert forall i :: 0 <= i < |a| ==> (a + b)[i] == a[i];
  }

  lemma {:induction false} TerminalStaysFirst(a: seq<TurnEvent>, b: seq<TurnEvent>)
    requires FirstTerminal(a) < |a|
    ensures FirstTerminal(a + b) == FirstTerminal(a)
  {
    if !Terminal(a[0]) {
      assert (a + b)[1..] == a[1..] + b;
      TerminalStaysFirst(a[1..], b);
    }
  }

  /** A waiting status stays through any events that are neither terminal nor suspensions. */
  lemma {:induction false} WaitingIsSticky(a: seq<TurnEvent>, b: seq<TurnEvent>)
    requires FirstTerminal(a) == |a| && AfterLastSuspended(a) > 0
    requires forall i :: 0 <= i < |b| ==> !Terminal(b[i]) && !b[i].kind.Suspended?
    ensures Summary(a + b).status == Summary(a).status && Summary(a + b).contradictions == []
  {
    if b == [] {
      assert a + b == a;
    } else {
      var init, last := b[..|b| - 1], b[|b| - 1];
      WaitingIsSticky(a, init);
      SummaryAppend(a + init, last);
      assert (a + init) + [last] == a + b;
      NoTerminalInEither(a, init);
    }
  }

  lemma {:induction false} NoTerminalInEither(a: seq<TurnEvent>, b: seq<TurnEvent>)
    requires FirstTerminal(a) == |a| && forall i :: 0 <= i < |b| ==> !Terminal(b[i])
    ensures FirstTerminal(a + b) == |a + b|
  {
  }

  // --- counting contradictions ---

  function CountLate(es: seq<TurnEvent>): nat {
    if es == [] then 0
    else
      var last := es[|es| - 1];
      CountLate(es[..|es| - 1]) + (if Terminal(last) || ActiveAfterTerminal(last) then 1 else 0)
  }

  lemma {:induction false} LateCount(terminal: TurnEvent, es: seq<TurnEvent>)
    ensures |LateContradictions(terminal, es)| == CountLate(es)
  {
    if es != [] {
      LateCount(terminal, es[..|es| - 1]);
    }
  }

  /** One contradiction per later terminal or activity event, and one for an error without text; none without a
      terminal event. */
  lemma {:induction false} ContradictionsAreCounted(es: seq<TurnEvent>)
    ensures var t := FirstTerminal(es);
            |Summary(es).contradictions|
            == if t == |es| then 0
               else (if es[t].kind.Error? && FailureText(es[t]).None? then 1 else 0) + CountLate(es[t + 1..])
  {
    var t := FirstTerminal(es);
    if t < |es| {
      LateCount(es[t], es[t + 1..]);
    }
  }

  // --- the reduction in terms of the events as they come, in whatever order ---

  /** Not later than: by sequence number, then by event id. */
  predicate NoLater(a: TurnEvent, b: TurnEvent) {
    a.number < b.number || (a.number == b.number && a.eventId <= b.eventId)
  }

  /** Sorting rearranges the events so that sequence numbers ascend, and event ids where these are equal. */
  lemma {:induction false} OrderedAscends(es: seq<TurnEvent>)
    ensures multiset(Ordered(es)) == multiset(es)
    ensures forall i, j :: 0 <= i < j < |es| ==>
              var a, b := Ordered(es)[i], Ordered(es)[j];
              a.number < b.number || (a.number == b.number && a.eventId <= b.eventId)
  {
    KeyIsPreorder();
    SortByIsSorted(es, KEY);
    var o := Ordered(es);
    forall i, j | 0 <= i < j < |es|
      ensures o[i].number < o[j].number || (o[i].number == o[j].number && o[i].eventId <= o[j].eventId)
    {
      assert KEY(o[i], o[j]);
    }
  }

  /** The greatest sequence number, or zero for no events. */
  ghost predicate IsLastNumber(es: seq<TurnEvent>, n: int) {
    if es == [] then n == 0
    else (exists e :: e in es && e.number == n) && forall e :: e in es ==> e.number <= n
  }

  /** A terminal event that no terminal event comes before. */
  ghost predicate IsFirstEnd(es: seq<TurnEvent>, e: TurnEvent) {
    && e in es && e.kind in {Done, Error, Cancelled}
    && forall x :: x in es && x.kind in {Done, Error, Cancelled} ==> NoLater(e, x)
  }

  /** A suspension that no suspension comes after. */
  ghost predicate IsLastWait(es: seq<TurnEvent>, e: TurnEvent) {
    && e in es && e.kind == Suspended
    && forall x :: x in es && x.kind == Suspended ==> NoLater(x, e)
  }

  /** The reported end is that of this event: its number, its kind with the status that goes with it, its text if it is
      an error. */
  predicate EndsWithEvent(r: Reduction, e: TurnEvent) {
    && r.terminalNumber == Some(e.number) && r.terminalKind == Some(e.kind)
    && match e.kind
       case Done => r.status == StatusCompleted && r.failureText.None?
       case Error => r.status == StatusFailed && r.failureText == ReadPayload(e.json).text
       case Cancelled => r.status == StatusCancelled && r.failureText.None?
       case _ => false
  }

  ghost predicate NotEnded(es: seq<TurnEvent>, r: Reduction) {
    && r.terminalNumber.None? && r.terminalKind.None? && r.failureText.None? && r.contradictions == []
    && (forall e :: e in es ==> e.kind !in {Done, Error, Cancelled})
    && match r.status
       case WaitingApproval => exists e :: IsLastWait(es, e) && ReadPayload(e.json).wake == WakeApproval
       case WaitingUser => exists e :: IsLastWait(es, e) && ReadPayload(e.json).wake != WakeApproval
       case StatusRunning => es != [] && forall e :: e in es ==> e.kind != Suspended
       case StatusEmpty => es == []
       case _ => false
  }

  /** The first terminal event fixes the end; without one the last suspension says what is waited for, and without that
      a turn with events is running. */
  ghost predicate Reduces(es: seq<TurnEvent>, r: Reduction) {
    && IsLastNumber(es, r.lastNumber)
    && if r.terminalKind.Some? then exists e :: IsFirstEnd(es, e) && EndsWithEvent(r, e)
       else NotEnded(es, r)
  }

  lemma {:induction false} SummaryReduces(es: seq<TurnEvent>)
    ensures Reduces(es, Summary(Ordered(es)))
  {
    var o := Ordered(es);
    OrderedAscends(es);
    SameElements(es, o);
    LastNumberIsGreatest(es, o);
    var t := FirstTerminal(o);
    if t < |o| {
      FirstTerminalIsFirstEnd(es, o, t);
      assert EndsWithEvent(Summary(o), o[t]);
    } else {
      SummaryNotEnded(es, o);
    }
  }

  lemma {:induction false} SummaryNotEnded(es: seq<TurnEvent>, o: seq<TurnEvent>)
    requires Ascending(o) && |es| == |o| && forall e :: e in es <==> e in o
    requires FirstTerminal(o) == |o|
    ensures NotEnded(es, Summary(o))
  {
    forall e | e in es ensures e.kind !in {Done, Error, Cancelled} {
      var i :| 0 <= i < |o| && o[i] == e;
      assert !Terminal(o[i]);
    }
    var n := AfterLastSuspended(o);
    if n > 0 {
      LastSuspendedIsLastWait(es, o, n - 1);
    } else {
      forall e | e in es ensures e.kind != Suspended {
        var i :| 0 <= i < |o| && o[i] == e;
      }
    }
  }

  lemma {:induction false} SameElements(a: seq<TurnEvent>, b: seq<TurnEvent>)
    requires multiset(a) == multiset(b)
    ensures forall e :: e in a <==> e in b
  {
    assert forall e :: e in a <==> e in multiset(a);
    assert forall e :: e in b <==> e in multiset(b);
  }

  ghost predicate Ascending(o: seq<TurnEvent>) {
    forall i, j :: 0 <= i < j < |o| ==> NoLater(o[i], o[j])
  }

  lemma {:induction false} LastNumberIsGreatest(es: seq<TurnEvent>, o: seq<TurnEvent>)
    requires Ascending(o) && |es| == |o| && forall e :: e in es <==> e in o
    ensures IsLastNumber(es, LastNumber(o))
  {
    if o != [] {
      var last := o[|o| - 1];
      assert last in es;
      forall e | e in es ensures e.number <= last.number {
        var i :| 0 <= i < |o| && o[i] == e;
        assert i < |o| - 1 ==> NoLater(o[i], o[|o| - 1]);
      }
    }
  }

  lemma {:induction false} FirstTerminalIsFirstEnd(es: seq<TurnEvent>, o: seq<TurnEvent>, t: nat)
    requires Ascending(o) && (forall e :: e in es <==> e in o)
    requires t < |o| && t == FirstTerminal(o)
    ensures IsFirstEnd(es, o[t])
  {
    forall x | x in es && x.kind in {Done, Error, Cancelled} ensures NoLater(o[t], x) {
      var i :| 0 <= i < |o| && o[i] == x;
      assert Terminal(o[i]);
    }
  }

  lemma {:induction false} LastSuspendedIsLastWait(es: seq<TurnEvent>, o: seq<TurnEvent>, k: nat)
    requires Ascending(o) && (forall e :: e in es <==> e in o)
    requires k < |o| && k + 1 == AfterLastSuspended(o)
    ensures IsLastWait(es, o[k])
  {
    forall x | x in es && x.kind == Suspended ensures NoLater(x, o[k]) {
      var i :| 0 <= i < |o| && o[i] == x;
      assert i <= k;
    }
  }

  /** An event that ends a turn or shows activity. */
  predicate Late(e: TurnEvent) {
    e.kind in {Done, Error, Cancelled, Activity, PlanUpdate, StepAdvance, Heartbeat}
  }

  function ToldOf(kind: EventKind, number: int, e: TurnEvent): Contradiction {
    if e.kind in {Done, Error, Cancelled} then MultipleTerminalEvents(e.kind, e.number, kind, number)
    else EventAfterTerminal(e.kind, e.number)
  }

  function ToldOfAll(kind: EventKind, number: int, es: seq<TurnEvent>): seq<Contradiction> {
    seq(|es|, i requires 0 <= i < |es| => ToldOf(kind, number, es[i]))
  }

  lemma {:induction false} LateAreTold(terminal: TurnEvent, es: seq<TurnEvent>)
    ensures LateContradictions(terminal, es) == ToldOfAll(terminal.kind, terminal.number, Filter(es, Late))
  {
    if es != [] {
      LateAreTold(terminal, es[..|es| - 1]);
    }
  }

  /** Of events in order: an error without visible text is told, then every later event that ends the turn again or
      shows activity, in order, and nothing else. */
  lemma {:induction false} ContradictionsTell(es: seq<TurnEvent>)
    requires FirstTerminal(es) < |es|
    ensures var t := FirstTerminal(es);
            var e, late := es[t], Filter(es[t + 1..], Late);
            && Selected(late, es[t + 1..], Late)
            && Summary(es).contradictions
               == (if e.kind == Error && ReadPayload(e.json).text.None? then [FailedTerminalMissingText] else [])
                  + ToldOfAll(e.kind, e.number, late)
  {
    var t := FirstTerminal(es);
    LateAreTold(es[t], es[t + 1..]);
    FilterSelects(es[t + 1..], Late);
  }

  ghost predicate AnyUnhashable(es: seq<TurnEvent>) {
    exists e :: e in es && e.kind == Suspended && ReadPayload(e.json).wake == WakeUnhashable
  }

  /** Only a suspension whose wake kind cannot be looked up makes the reduction raise, and without a terminal event it
      always does. */
  lemma {:induction false} RaisingIsUnhashable(es: seq<TurnEvent>)
    ensures Raises(Ordered(es)) ==> AnyUnhashable(es)
    ensures AnyUnhashable(es) ==> Raises(Ordered(es)) || Summary(Ordered(es)).terminalKind.Some?
  {
    var o := Ordered(es);
    SameElements(es, o);
    if Raises(o) {
      var i :| 0 <= i < FirstTerminal(o) && RaisesOn(o[i]);
      assert o[i] in es;
    }
    if e :| e in es && e.kind == Suspended && ReadPayload(e.json).wake == WakeUnhashable {
      var i :| 0 <= i < |o| && o[i] == e;
      assert RaisesOn(o[i]);
    }
  }

  /** What the next event does to everything the loop keeps track of. */
  lemma {:induction false} OneEventMore(es: seq<TurnEvent>, i: nat)
    requires i < |es|
    ensures ContinueAll(Summary([]), es[..i + 1]) == Continue(ContinueAll(Summary([]), es[..i]), es[i])
    ensures FirstTerminal(es[..i + 1])
            == if FirstTerminal(es[..i]) < i then FirstTerminal(es[..i]) else if Terminal(es[i]) then i else i + 1
    ensures Raises(es[..i + 1]) <==> Raises(es[..i]) || (FirstTerminal(es[..i]) == i && RaisesOn(es[i]))
    ensures LastNumber(es[..i + 1]) == es[i].number
  {
    assert es[..i + 1][..i] == es[..i] && es[..i + 1] == es[..i] + [es[i]];
    RaisesAppend(es[..i], es[i]);
    FirstTerminalAppend(es[..i], es[i]);
  }

  /** The reducer. Nothing is returned when a set lookup raises. */
  method ReduceEvents(events: seq<TurnEvent>) returns (r: Option<Reduction>)
    ensures r.None? <==> Raises(Ordered(events))
    ensures r.Some? ==> r.value == Summary(Ordered(events)) && Reduces(events, r.value)
    ensures r.None? ==> AnyUnhashable(events)
    ensures r.Some? && AnyUnhashable(events) ==> r.value.terminalKind.Some?
  {
    r := ReduceOrdered(Ordered(events));
    SummaryReduces(events);
    RaisingIsUnhashable(events);
  }

  /** The loop over the events in order. */
  method ReduceOrdered(ordered: seq<TurnEvent>) returns (r: Option<Reduction>)
    ensures r.None? <==> Raises(ordered)
    ensures r.Some? ==> r.value == Summary(ordered)
  {
    var status, terminalNumber, terminalKind: Option<EventKind> := StatusEmpty, 0, None;
    var failureText: Option<string>, contradictions: seq<Contradiction> := None, [];
    var i := 0;
    while i < |ordered|
      invariant 0 <= i <= |ordered|
      invariant ContinueAll(Summary([]), ordered[..i])
                == Reduction(status, if terminalKind.Some? then Some(terminalNumber) else None, terminalKind,
                             failureText, LastNumber(ordered[..i]), contradictions)
      invariant terminalKind.Some? <==> FirstTerminal(ordered[..i]) < i
      invariant terminalKind.None? ==> failureText.None?
      invariant !Raises(ordered[..i])
    {
      var event := ordered[i];
      assert contradictions + [] == contradictions;
      OneEventMore(ordered, i);
      i := i + 1;
      if terminalKind.Some? {
        if Terminal(event) {
          contradictions := contradictions
            + [MultipleTerminalEvents(event.kind, event.number, terminalKind.value, terminalNumber)];
        } else if ActiveAfterTerminal(event) {
          contradictions := contradictions + [EventAfterTerminal(event.kind, event.number)];
        }
        continue;
      }
      if event.kind.Done? {
        status, terminalNumber, terminalKind := StatusCompleted, event.number, Some(event.kind);
      } else if event.kind.Error? {
        status, terminalNumber, terminalKind := StatusFailed, event.number, Some(event.kind);
        failureText := event.Payload().text;
        if failureText.None? {
          contradictions := contradictions + [FailedTerminalMissingText];
        }
      } else if event.kind.Cancelled? {
        status, terminalNumber, terminalKind := StatusCancelled, event.number, Some(event.kind);
      } else if event.kind.Suspended? {
        if event.Payload().wake.WakeUnhashable? {
          StillRaises(ordered, i);
          return None;
        }
        status := if event.Payload().wake.WakeApproval? then WaitingApproval else WaitingUser;
      } else if status == StatusEmpty {
        status := StatusRunning;
      }
    }
    assert ordered[..i] == ordered && [] + ordered == ordered;
    ReductionContinues([], ordered);
    var last := if ordered == [] then 0 else ordered[|ordered| - 1].number;
    return Some(Reduction(status, if terminalKind.Some? then Some(terminalNumber) else None, terminalKind,
                          failureText, last, contradictions));
  }

  lemma {:induction false} StillRaises(es: seq<TurnEvent>, i: nat)
    requires i <= |es| && Raises(es[..i])
    ensures Raises(es)
    decreases |es| - i
  {
    if i == |es| {
      assert es[..i] == es;
    } else {
      assert es[..i + 1] == es[..i] + [es[i]];
      SummaryAppend(es[..i], es[i]);
      StillRaises(es, i + 1);
    }
  }
}
