/** The soak evaluator: which invariants a list of turn events violates. */
module StabilitySoak {
  import opened Wrappers
  import opened Selection

  datatype Kind = Selected | Done | Error | Cancelled | OtherKind(name: string)

  /** A normalised event. The evaluator cannot tell an absent turn or assistant id from an empty one; `leaks` says
      whether the lower-cased text contains a reasoning marker. */
  datatype SoakEvent = SoakEvent(kind: Kind, thread: Option<string>, turn: string, assistantId: string, leaks: bool)

  datatype Violation =
    FocusChanged | ReasoningLeak | DuplicateTerminal | DuplicateAssistant | MissingTerminal | MissingAssistant

  predicate Terminal(e: SoakEvent) {
    e.kind.Done? || e.kind.Error? || e.kind.Cancelled?
  }

  function TurnOf(e: SoakEvent): string {
    if e.turn != "" then e.turn else if e.thread.GetOr("") != "" then e.thread.value else "unknown"
  }

  predicate Ends(e: SoakEvent, turn: string) {
    Terminal(e) && TurnOf(e) == turn
  }

  // --- what the dictionaries hold ---

  function TerminalCount(events: seq<SoakEvent>, turn: string): nat {
    if events == [] then 0
    else TerminalCount(events[..|events| - 1], turn) + (if Ends(events[|events| - 1], turn) then 1 else 0)
  }

  function AssistantIds(events: seq<SoakEvent>, turn: string): set<string> {
    if events == [] then {}
    else
      var last := events[|events| - 1];
      AssistantIds(events[..|events| - 1], turn)
      + (if Ends(last, turn) && last.assistantId != "" then {last.assistantId} else {})
  }

  predicate FocusMoves(e: SoakEvent, selected: string) {
    e.kind.Selected? && e.thread != Some(selected)
  }

  /** The event belongs to this turn: it names it, or names no turn but the thread, or neither and the turn is
      unknown. */
  predicate BelongsTo(e: SoakEvent, turn: string) {
    if e.turn != "" then e.turn == turn
    else if e.thread.Some? && e.thread.value != "" then e.thread.value == turn
    else turn == "unknown"
  }

  predicate EndsFor(e: SoakEvent, turn: string) {
    e.kind in {Done, Error, Cancelled} && BelongsTo(e, turn)
  }

  /** What the tallies hold: the number of events that end the turn, and the assistant ids these name. */
  lemma {:induction false} TalliesAreOfEvents(events: seq<SoakEvent>, turn: string)
    ensures TerminalCount(events, turn) == |set i: nat | i < |events| && EndsFor(events[i], turn)|
    ensures AssistantIds(events, turn)
            == set e | e in events && EndsFor(e, turn) && e.assistantId != "" :: e.assistantId
  {
    EndsAreOfEvents(events, turn);
    forall id ensures id in AssistantIds(events, turn) <==> NamedBy(events, turn, id) {
      AssistantsAreOfEvents(events, turn, id);
    }
  }

  lemma {:induction false} SameEnds(e: SoakEvent, turn: string)
    ensures Ends(e, turn) <==> EndsFor(e, turn)
  {
  }

  lemma {:induction false} EndsAreOfEvents(events: seq<SoakEvent>, turn: string)
    ensures TerminalCount(events, turn) == |set i: nat | i < |events| && EndsFor(events[i], turn)|
  {
    if events != [] {
      var k := |events| - 1;
      EndsAreOfEvents(events[..k], turn);
      SameEnds(events[k], turn);
      var there := (i: nat) => i < |events| && EndsFor(events[i], turn);
      OneIndexMore(k, there);
      assert (set i: nat | i < |events| && EndsFor(events[i], turn)) == Indices(k + 1, there);
      assert (set i: nat | i < |events[..k]| && EndsFor(events[..k][i], turn)) == Indices(k, there);
    }
  }

  ghost predicate NamedBy(events: seq<SoakEvent>, turn: string, id: string) {
    exists e :: e in events && EndsFor(e, turn) && e.assistantId != "" && e.assistantId == id
  }

  lemma {:induction false} AssistantsAreOfEvents(events: seq<SoakEvent>, turn: string, id: string)
    ensures id in AssistantIds(events, turn) <==> NamedBy(events, turn, id)
  {
    if events != [] {
      var k := |events| - 1;
      AssistantsAreOfEvents(events[..k], turn, id);
      SameEnds(events[k], turn);
      assert forall e :: e in events <==> e in events[..k] || e == events[k];
    }
  }

  // --- the verdict, declaratively ---

  ghost predicate FocusEverMoves(events: seq<SoakEvent>, selected: string) {
    exists e :: e in events && e.kind == Selected && e.thread != Some(selected)
  }

  ghost predicate EverLeaks(events: seq<SoakEvent>) {
    exists e :: e in events && e.leaks
  }

  ghost predicate AnyEndsTwice(events: seq<SoakEvent>) {
    exists t :: EndsTwice(events, t)
  }

  ghost predicate AnyTwoAssistants(events: seq<SoakEvent>) {
    exists t :: TwoAssistants(events, t)
  }

  ghost predicate AnyNeverEnds(events: seq<SoakEvent>, expectedTurns: set<string>) {
    exists t :: t in expectedTurns && NeverEnds(events, t)
  }

  ghost predicate AnyNoAssistant(events: seq<SoakEvent>, expectedTurns: set<string>) {
    exists t :: t in expectedTurns && NoAssistant(events, t)
  }

  ghost predicate Violated(v: Violation, events: seq<SoakEvent>, selected: string, expectedTurns: set<string>) {
    match v
    case FocusChanged => FocusEverMoves(events, selected)
    case ReasoningLeak => EverLeaks(events)
    case DuplicateTerminal => AnyEndsTwice(events)
    case DuplicateAssistant => AnyTwoAssistants(events)
    case MissingTerminal => AnyNeverEnds(events, expectedTurns)
    case MissingAssistant => AnyNoAssistant(events, expectedTurns)
  }

  predicate EndsTwice(events: seq<SoakEvent>, t: string) {
    TerminalCount(events, t) > 1
  }

  predicate NeverEnds(events: seq<SoakEvent>, t: string) {
    TerminalCount(events, t) == 0
  }

  predicate TwoAssistants(events: seq<SoakEvent>, t: string) {
    |AssistantIds(events, t)| > 1
  }

  predicate NoAssistant(events: seq<SoakEvent>, t: string) {
    AssistantIds(events, t) == {}
  }

  ghost predicate TerminalsTallied(terminals: map<string, nat>, events: seq<SoakEvent>) {
    forall t :: (if t in terminals then terminals[t] else 0) == TerminalCount(events, t)
  }

  ghost predicate AssistantsTallied(assistants: map<string, set<string>>, events: seq<SoakEvent>) {
    forall t :: (if t in assistants then assistants[t] else {}) == AssistantIds(events, t)
  }

  lemma {:induction false} TerminalStep(terminals: map<string, nat>, events: seq<SoakEvent>, e: SoakEvent)
    requires TerminalsTallied(terminals, events)
    ensures TerminalsTallied(
              if Terminal(e) then
                terminals[TurnOf(e) := (if TurnOf(e) in terminals then terminals[TurnOf(e)] else 0) + 1]
              else terminals, events + [e])
  {
    assert (events + [e])[..|events|] == events;
  }

  lemma {:induction false} AssistantStep(assistants: map<string, set<string>>, events: seq<SoakEvent>, e: SoakEvent)
    requires AssistantsTallied(assistants, events)
    ensures AssistantsTallied(
              if Terminal(e) && e.assistantId != "" then
                assistants[TurnOf(e) := (if TurnOf(e) in assistants then assistants[TurnOf(e)] else {})
                           + {e.assistantId}]
              else assistants, events + [e])
  {
    assert (events + [e])[..|events|] == events;
  }

  ghost predicate EventViolationsIn(violations: set<Violation>, events: seq<SoakEvent>, selected: string) {
    && violations <= {FocusChanged, ReasoningLeak}
    && (FocusChanged in violations <==> FocusEverMoves(events, selected))
    && (ReasoningLeak in violations <==> EverLeaks(events))
  }

  /** The pass over the events. */
  method Tally(events: seq<SoakEvent>, selected: string)
    returns (violations: set<Violation>, terminals: map<string, nat>, assistants: map<string, set<string>>)
    ensures TerminalsTallied(terminals, events) && AssistantsTallied(assistants, events)
    ensures EventViolationsIn(violations, events, selected)
  {
    violations, terminals, assistants := {}, map[], map[];
    for i := 0 to |events|
      invariant TerminalsTallied(terminals, events[..i]) && AssistantsTallied(assistants, events[..i])
      invariant EventViolationsIn(violations, events[..i], selected)
    {
      var e := events[i];
      assert events[..i + 1] == events[..i] + [e];
      TerminalStep(terminals, events[..i], e);
      AssistantStep(assistants, events[..i], e);
      if FocusMoves(e, selected) {
        violations := violations + {FocusChanged};
      }
      if Terminal(e) {
        var turn := TurnOf(e);
        terminals := terminals[turn := (if turn in terminals then terminals[turn] else 0) + 1];
        if e.assistantId != "" {
          assistants := assistants[turn := (if turn in assistants then assistants[turn] else {}) + {e.assistantId}];
        }
      }
      if e.leaks {
        violations := violations + {ReasoningLeak};
      }
    }
    assert events[..|events|] == events;
  }

  /** The two violations that are read off the terminal counts after the loop. */
  method TerminalViolations(terminals: map<string, nat>, expectedTurns: set<string>, ghost events: seq<SoakEvent>)
    returns (duplicate: bool, missing: bool)
    requires TerminalsTallied(terminals, events)
    ensures duplicate <==> AnyEndsTwice(events)
    ensures missing <==> AnyNeverEnds(events, expectedTurns)
  {
    duplicate := exists t :: t in terminals && terminals[t] > 1;
    missing := exists t :: t in expectedTurns && (if t in terminals then terminals[t] else 0) == 0;
    if duplicate {
      var t :| t in terminals && terminals[t] > 1;
      assert EndsTwice(events, t);
    }
    if exists t :: EndsTwice(events, t) {
      var t :| EndsTwice(events, t);
      assert t in terminals && terminals[t] > 1;
    }
    if missing {
      var t :| t in expectedTurns && (if t in terminals then terminals[t] else 0) == 0;
      assert NeverEnds(events, t);
    }
    if exists t :: t in expectedTurns && NeverEnds(events, t) {
      var t :| t in expectedTurns && NeverEnds(events, t);
      assert (if t in terminals then terminals[t] else 0) == 0;
    }
  }

  method AssistantViolations(assistants: map<string, set<string>>, expectedTurns: set<string>,
                             ghost events: seq<SoakEvent>)
    returns (duplicate: bool, missing: bool)
    requires AssistantsTallied(assistants, events)
    ensures duplicate <==> AnyTwoAssistants(events)
    ensures missing <==> AnyNoAssistant(events, expectedTurns)
  {
    duplicate := exists t :: t in assistants && |assistants[t]| > 1;
    missing := exists t :: t in expectedTurns && (if t in assistants then assistants[t] else {}) == {};
    if duplicate {
      var t :| t in assistants && |assistants[t]| > 1;
      assert TwoAssistants(events, t);
    }
    if exists t :: TwoAssistants(events, t) {
      var t :| TwoAssistants(events, t);
      assert t in assistants && assistants[t] == AssistantIds(events, t);
    }
    if missing {
      var t :| t in expectedTurns && (if t in assistants then assistants[t] else {}) == {};
      assert NoAssistant(events, t);
    }
    if exists t :: t in expectedTurns && NoAssistant(events, t) {
      var t :| t in expectedTurns && NoAssistant(events, t);
      assert (if t in assistants then assistants[t] else {}) == {};
    }
  }

  lemma {:induction false} SixAnswers(violations: set<Violation>, events: seq<SoakEvent>, selected: string,
                                      expectedTurns: set<string>)
    requires FocusChanged in violations <==> FocusEverMoves(events, selected)
    requires ReasoningLeak in violations <==> EverLeaks(events)
    requires DuplicateTerminal in violations <==> AnyEndsTwice(events)
    requires DuplicateAssistant in violations <==> AnyTwoAssistants(events)
    requires MissingTerminal in violations <==> AnyNeverEnds(events, expectedTurns)
    requires MissingAssistant in violations <==> AnyNoAssistant(events, expectedTurns)
    ensures forall v :: v in violations <==> Violated(v, events, selected, expectedTurns)
  {
    forall v ensures v in violations <==> Violated(v, events, selected, expectedTurns) {
      match v
      case FocusChanged =>
      case ReasoningLeak =>
      case DuplicateTerminal =>
      case DuplicateAssistant =>
      case MissingTerminal =>
      case MissingAssistant =>
    }
  }

  /** Every violation is reported exactly when it holds of the events; the run passes when none does. */
  method Evaluate(events: seq<SoakEvent>, selected: string, expectedTurns: set<string>)
    returns (passed: bool, violations: set<Violation>, terminals: map<string, nat>, assistantCounts: map<string, nat>)
    ensures forall v :: v in violations <==> Violated(v, events, selected, expectedTurns)
    ensures passed <==> violations == {}
    ensures TerminalsTallied(terminals, events)
    ensures forall t :: t in assistantCounts ==> assistantCounts[t] == |AssistantIds(events, t)|
    ensures forall t :: t !in assistantCounts ==> NoAssistant(events, t)
  {
    var assistants;
    violations, terminals, assistants := Tally(events, selected);
    var repeated, unfinished := TerminalViolations(terminals, expectedTurns, events);
    var ambiguous, unattributed := AssistantViolations(assistants, expectedTurns, events);
    if repeated {
      violations := violations + {DuplicateTerminal};
    }
    if ambiguous {
      violations := violations + {DuplicateAssistant};
    }
    if unfinished {
      violations := violations + {MissingTerminal};
    }
    if unattributed {
      violations := violations + {MissingAssistant};
    }
    SixAnswers(violations, events, selected, expectedTurns);
    passed := violations == {};
    assistantCounts := map t | t in assistants :: |assistants[t]|;
  }

  // --- consequences ---

  ghost predicate Clean(events: seq<SoakEvent>, selected: string, expectedTurns: set<string>) {
    forall v :: !Violated(v, events, selected, expectedTurns)
  }

  /** A run without violations ended every expected turn exactly once, for exactly one assistant message. */
  lemma {:induction false} CleanTurnsEndOnce(events: seq<SoakEvent>, selected: string, expectedTurns: set<string>,
                                             turn: string)
    requires Clean(events, selected, expectedTurns) && turn in expectedTurns
    ensures TerminalCount(events, turn) == 1
    ensures exists id :: AssistantIds(events, turn) == {id}
  {
    assert !Violated(MissingTerminal, events, selected, expectedTurns)
           && !Violated(DuplicateTerminal, events, selected, expectedTurns);
    assert !Violated(MissingAssistant, events, selected, expectedTurns)
           && !Violated(DuplicateAssistant, events, selected, expectedTurns);
    assert !NeverEnds(events, turn) && !EndsTwice(events, turn) && !NoAssistant(events, turn)
           && !TwoAssistants(events, turn);
    var ids := AssistantIds(events, turn);
    assert |ids| <= 1 && ids != {};
    var id :| id in ids;
    assert ids - {id} == {} by {
      assert |ids - {id}| == |ids| - 1;
    }
    assert ids == {id};
  }

  lemma {:induction false} CountConcat(a: seq<SoakEvent>, b: seq<SoakEvent>, t: string)
    ensures TerminalCount(a + b, t) == TerminalCount(a, t) + TerminalCount(b, t)
    ensures AssistantIds(a + b, t) == AssistantIds(a, t) + AssistantIds(b, t)
  {
    if b == [] {
      assert a + b == a;
    } else {
      assert (a + b)[..|a + b| - 1] == a + b[..|b| - 1];
      CountConcat(a, b[..|b| - 1], t);
    }
  }

  predicate Sticky(v: Violation) {
    !v.MissingTerminal? && !v.MissingAssistant?
  }

  lemma {:induction false} SubsetCardinality(a: set<string>, b: set<string>)
    requires a <= b
    ensures |a| <= |b|
  {
    if a != {} {
      var x :| x in a;
      SubsetCardinality(a - {x}, b - {x});
    }
  }

  /** More events never take back a focus, duplicate or leak violation and never bring about a missing one. */
  lemma {:induction false} MoreEventsOnlyAdd(a: seq<SoakEvent>, b: seq<SoakEvent>, selected: string,
                                             expectedTurns: set<string>, v: Violation)
    ensures Sticky(v) && Violated(v, a, selected, expectedTurns) ==> Violated(v, a + b, selected, expectedTurns)
    ensures !Sticky(v) && Violated(v, a + b, selected, expectedTurns) ==> Violated(v, a, selected, expectedTurns)
  {
    forall t ensures TerminalCount(a, t) <= TerminalCount(a + b, t) && AssistantIds(a, t) <= AssistantIds(a + b, t)
                     && |AssistantIds(a, t)| <= |AssistantIds(a + b, t)|
                     && (EndsTwice(a, t) ==> EndsTwice(a + b, t)) && (TwoAssistants(a, t) ==> TwoAssistants(a + b, t))
                     && (NeverEnds(a + b, t) ==> NeverEnds(a, t)) && (NoAssistant(a + b, t) ==> NoAssistant(a, t))
    {
      CountConcat(a, b, t);
      SubsetCardinality(AssistantIds(a, t), AssistantIds(a + b, t));
    }
    assert forall e :: e in a ==> e in a + b;
  }

  lemma {:induction false} CountWithout(b: seq<SoakEvent>, i: nat, t: string)
    requires i < |b|
    ensures var rest := b[..i] + b[i + 1..];
            && TerminalCount(b, t) == TerminalCount(rest, t) + TerminalCount([b[i]], t)
            && AssistantIds(b, t) == AssistantIds(rest, t) + AssistantIds([b[i]], t)
  {
    var front, back := b[..i], b[i + 1..];
    assert b == front + ([b[i]] + back);
    CountConcat(front, back, t);
    CountConcat(front, [b[i]] + back, t);
    CountConcat([b[i]], back, t);
  }

  lemma {:induction false} WithoutOne<T>(s: seq<T>, i: nat)
    requires i < |s|
    ensures multiset(s[..i] + s[i + 1..]) == multiset(s) - multiset{s[i]}
  {
    var front, back := s[..i], s[i + 1..];
    assert s == front + ([s[i]] + back);
    assert multiset(s) == multiset(front) + (multiset{s[i]} + multiset(back));
  }

  lemma {:induction false} RestsAgree<T>(a: seq<T>, b: seq<T>, i: nat)
    requires a != [] && i < |b| && b[i] == a[0] && multiset(a) == multiset(b)
    ensures multiset(a[..0] + a[1..]) == multiset(b[..i] + b[i + 1..])
  {
    WithoutOne(a, 0);
    WithoutOne(b, i);
  }

  lemma {:induction false} TalliesForgetOrder(a: seq<SoakEvent>, b: seq<SoakEvent>, t: string)
    requires multiset(a) == multiset(b)
    ensures TerminalCount(a, t) == TerminalCount(b, t) && AssistantIds(a, t) == AssistantIds(b, t)
    decreases |a|
  {
    assert |multiset(a)| == |a| && |multiset(b)| == |b|;
    if a != [] {
      assert a[0] in multiset(b);
      var i :| 0 <= i < |b| && b[i] == a[0];
      CountWithout(a, 0, t);
      CountWithout(b, i, t);
      RestsAgree(a, b, i);
      TalliesForgetOrder(a[..0] + a[1..], b[..i] + b[i + 1..], t);
    }
  }

  /** The verdict does not depend on the order of the events. */
  lemma {:induction false} VerdictForgetsOrder(a: seq<SoakEvent>, b: seq<SoakEvent>, selected: string,
                                               expectedTurns: set<string>, v: Violation)
    requires multiset(a) == multiset(b)
    ensures Violated(v, a, selected, expectedTurns) <==> Violated(v, b, selected, expectedTurns)
  {
    forall t ensures EndsTwice(a, t) == EndsTwice(b, t) && TwoAssistants(a, t) == TwoAssistants(b, t)
                     && NeverEnds(a, t) == NeverEnds(b, t) && NoAssistant(a, t) == NoAssistant(b, t)
    {
      TalliesForgetOrder(a, b, t);
    }
    assert forall e :: e in a <==> e in multiset(a);
    assert forall e :: e in b <==> e in multiset(b);
  }
}
