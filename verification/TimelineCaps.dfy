/** Cutting a timeline, and a list of diagnostic gaps, down to a budget. */
module TimelineCaps {
  /** A timeline entry: an event, or the marker that counts omitted ones. */
  datatype Entry = Event(id: int) | Omitted(count: nat)

  function Min(a: int, b: int): int {
    if a < b then a else b
  }

  function Max(a: int, b: int): int {
    if a > b then a else b
  }

  function CapTimelineEvents(events: seq<Entry>, maxEvents: int): seq<Entry> {
    if maxEvents <= 0 then (if events != [] then [Omitted(|events|)] else [])
    else if |events| <= maxEvents then events
    else if maxEvents == 1 then [Omitted(|events|)]
    else
      var prefix := Min(10, Max(1, maxEvents / 3));
      var suffix := maxEvents - prefix - 1;
      if suffix <= 0 then events[..maxEvents - 1] + [Omitted(|events| - (maxEvents - 1))]
      else events[..prefix] + [Omitted(|events| - prefix - suffix)] + events[|events| - suffix..]
  }

  predicate MarkerFree(events: seq<Entry>) {
    forall i :: 0 <= i < |events| ==> events[i].Event?
  }

  /** What `build_turn_timeline` reports as omitted: the counts of all markers. */
  function OmittedTotal(events: seq<Entry>): nat {
    if events == [] then 0
    else
      var last := events[|events| - 1];
      OmittedTotal(events[..|events| - 1]) + (if last.Omitted? then last.count else 0)
  }

  function KeptTotal(events: seq<Entry>): nat {
    if events == [] then 0 else KeptTotal(events[..|events| - 1]) + (if events[|events| - 1].Event? then 1 else 0)
  }

  /** A beginning, a marker for what is missing, and an end of the original. */
  ghost predicate Cut(r: seq<Entry>, events: seq<Entry>, prefix: nat, suffix: nat) {
    && prefix + suffix < |events|
    && r == events[..prefix] + [Omitted(|events| - prefix - suffix)] + events[|events| - suffix..]
  }

  lemma {:induction false} TotalsOfPlain(events: seq<Entry>)
    requires MarkerFree(events)
    ensures OmittedTotal(events) == 0 && KeptTotal(events) == |events|
  {
    if events != [] {
      TotalsOfPlain(events[..|events| - 1]);
    }
  }

  lemma {:induction false} TotalsOfConcat(a: seq<Entry>, b: seq<Entry>)
    ensures OmittedTotal(a + b) == OmittedTotal(a) + OmittedTotal(b)
    ensures KeptTotal(a + b) == KeptTotal(a) + KeptTotal(b)
  {
    if b == [] {
      assert a + b == a;
    } else {
      assert (a + b)[..|a + b| - 1] == a + b[..|b| - 1];
      TotalsOfConcat(a, b[..|b| - 1]);
    }
  }

  lemma {:induction false} TotalsOfCut(r: seq<Entry>, events: seq<Entry>, prefix: nat, suffix: nat)
    requires MarkerFree(events) && Cut(r, events, prefix, suffix)
    ensures OmittedTotal(r) == |events| - prefix - suffix && KeptTotal(r) == prefix + suffix
  {
    var a, m, b := events[..prefix], [Omitted(|events| - prefix - suffix)], events[|events| - suffix..];
    TotalsOfConcat(a + m, b);
    TotalsOfConcat(a, m);
    TotalsOfPlain(a);
    TotalsOfPlain(b);
    assert m[..0] == [];
  }

  /** A marker-free timeline is either left alone or cut once, and kept plus omitted make up the whole. */
  lemma {:induction false} CappingConserves(events: seq<Entry>, maxEvents: int)
    requires MarkerFree(events)
    ensures var r := CapTimelineEvents(events, maxEvents);
            && (r == events || exists prefix, suffix :: Cut(r, events, prefix, suffix))
            && KeptTotal(r) + OmittedTotal(r) == |events|
  {
    var r := CapTimelineEvents(events, maxEvents);
    TotalsOfPlain(events);
    if r != events {
      var prefix := if maxEvents <= 1 then 0 else Min(10, Max(1, maxEvents / 3));
      var suffix := if maxEvents <= 1 then 0 else maxEvents - prefix - 1;
      assert events[|events| - suffix..] == [] || suffix > 0;
      assert Cut(r, events, prefix, suffix);
      TotalsOfCut(r, events, prefix, suffix);
    }
  }

  /** The result fits the budget exactly when the budget is positive or there is nothing to show: with no budget at
      all, one marker is still shown. */
  lemma {:induction false} CappingFits(events: seq<Entry>, maxEvents: int)
    ensures |CapTimelineEvents(events, maxEvents)| <= Max(0, maxEvents) <==> maxEvents >= 1 || events == []
  {
  }

  /** Capping twice changes nothing exactly when the budget is positive or at most one event was there: without a
      budget the second capping counts the first one's marker as the only event. */
  lemma {:induction false} CappingTwice(events: seq<Entry>, maxEvents: int)
    requires MarkerFree(events)
    ensures CapTimelineEvents(CapTimelineEvents(events, maxEvents), maxEvents) == CapTimelineEvents(events, maxEvents)
            <==> maxEvents >= 1 || |events| <= 1
  {
    if maxEvents >= 1 {
      CappingFits(events, maxEvents);
    }
  }

  // --- diagnostic gaps, collected stage by stage ---

  datatype Gap =
    | MissingTerminalReason(status: string, run: string)
    | MissingModelAttribution(run: string)
    | WithoutRunEvents(run: string)
    | WithoutTurnEvents(task: string)

  /** SQLite's `limit n`: the first n rows, or all of them if n is negative. */
  function Limited<T>(rows: seq<T>, n: int): seq<T> {
    if 0 <= n <= |rows| then rows[..n] else rows
  }

  function EndedGaps(rows: seq<(string, string)>): (r: seq<Gap>)
    ensures |r| == |rows|
    ensures forall i :: 0 <= i < |r| ==>
              r[i].MissingTerminalReason? && r[i].status == rows[i].0 && r[i].run == rows[i].1
  {
    seq(|rows|, i requires 0 <= i < |rows| => MissingTerminalReason(rows[i].0, rows[i].1))
  }

  function AttributionGaps(rows: seq<string>): (r: seq<Gap>)
    ensures |r| == |rows|
    ensures forall i :: 0 <= i < |r| ==> r[i].MissingModelAttribution? && r[i].run == rows[i]
  {
    seq(|rows|, i requires 0 <= i < |rows| => MissingModelAttribution(rows[i]))
  }

  function JournalGaps(rows: seq<string>): (r: seq<Gap>)
    ensures |r| == |rows|
    ensures forall i :: 0 <= i < |r| ==> r[i].WithoutRunEvents? && r[i].run == rows[i]
  {
    seq(|rows|, i requires 0 <= i < |rows| => WithoutRunEvents(rows[i]))
  }

  function TurnGaps(rows: seq<string>): (r: seq<Gap>)
    ensures |r| == |rows|
    ensures forall i :: 0 <= i < |r| ==> r[i].WithoutTurnEvents? && r[i].task == rows[i]
  {
    seq(|rows|, i requires 0 <= i < |rows| => WithoutTurnEvents(rows[i]))
  }

  /** Append what the stage's query returns under a limit, row by row. */
  method AddGaps(gaps: seq<Gap>, stage: seq<Gap>, limit: int) returns (longer: seq<Gap>)
    ensures longer == gaps + Limited(stage, limit)
  {
    longer := gaps;
    var rows := Limited(stage, limit);
    for i := 0 to |rows|
      invariant longer == gaps + rows[..i]
    {
      longer := longer + [rows[i]];
    }
  }

  lemma {:induction false} BudgetedStage(all: seq<Gap>, gaps: seq<Gap>, stage: seq<Gap>, budget: nat)
    requires gaps == Limited(all, budget)
    ensures (if |gaps| < budget then gaps + Limited(stage, budget - |gaps|) else gaps) == Limited(all + stage, budget)
  {
  }

  /** A later stage: only what is left of the budget is asked for, and nothing if nothing is left. */
  method NextStage(gaps: seq<Gap>, stage: seq<Gap>, maxGaps: int, ghost all: seq<Gap>) returns (longer: seq<Gap>)
    ensures maxGaps < 0 ==> longer == gaps
    ensures maxGaps >= 0 && gaps == Limited(all, maxGaps) ==> longer == Limited(all + stage, maxGaps)
  {
    var remaining := Max(0, maxGaps - |gaps|);
    if maxGaps >= 0 && gaps == Limited(all, maxGaps) {
      BudgetedStage(all, gaps, stage, maxGaps);
    }
    if remaining > 0 {
      longer := AddGaps(gaps, stage, remaining);
    } else {
      longer := gaps;
    }
  }

  /** Each stage asks only for what the earlier ones left of the budget, and the third only if its table exists;
      together they return the first gaps of all stages in a row. A negative budget asks the first stage for
      everything and the others for nothing. */
  method BuildRuntimeDiagnosticGaps(endedRuns: seq<(string, string)>, unattributed: seq<string>, hasRunEvents: bool,
                                    unjournaled: seq<string>, silentTurns: seq<string>, maxGaps: int)
    returns (gaps: seq<Gap>)
    ensures maxGaps >= 0 ==>
              gaps == Limited(EndedGaps(endedRuns) + AttributionGaps(unattributed)
                              + (if hasRunEvents then JournalGaps(unjournaled) else []) + TurnGaps(silentTurns),
                              maxGaps)
    ensures maxGaps < 0 ==> gaps == EndedGaps(endedRuns)
  {
    var ended, attribution := EndedGaps(endedRuns), AttributionGaps(unattributed);
    var journal := if hasRunEvents then JournalGaps(unjournaled) else [];
    gaps := AddGaps([], ended, maxGaps);
    assert [] + Limited(ended, maxGaps) == Limited(ended, maxGaps);
    gaps := NextStage(gaps, attribution, maxGaps, ended);
    gaps := NextStage(gaps, journal, maxGaps, ended + attribution);
    gaps := NextStage(gaps, TurnGaps(silentTurns), maxGaps, ended + attribution + journal);
  }

  /** A third of the budget, but at least one and at most ten. */
  predicate IsThird(prefix: nat, maxEvents: nat) {
    && 1 <= prefix <= 10
    && (prefix > 1 ==> 3 * prefix <= maxEvents) && (prefix < 10 ==> maxEvents < 3 * (prefix + 1))
  }

  lemma {:induction false} ThirdOf(maxEvents: nat) returns (prefix: nat)
    requires maxEvents >= 2
    ensures prefix == Min(10, Max(1, maxEvents / 3)) && IsThird(prefix, maxEvents) && prefix < maxEvents
  {
    var third := maxEvents / 3;
    assert 3 * third <= maxEvents < 3 * third + 3;
    prefix := Min(10, Max(1, third));
  }

  /** A timeline that does not fit is cut to exactly the budget, a third of which stands before the marker; a budget of
      one or less shows the marker alone. */
  lemma {:induction false} CappingUsesTheBudget(events: seq<Entry>, maxEvents: int) returns (prefix: nat, suffix: nat)
    requires |events| > Max(0, maxEvents)
    ensures Cut(CapTimelineEvents(events, maxEvents), events, prefix, suffix)
    ensures if maxEvents >= 2 then IsThird(prefix, maxEvents) && prefix + 1 + suffix == maxEvents
            else prefix == suffix == 0
  {
    if maxEvents >= 2 {
      prefix := ThirdOf(maxEvents);
      suffix := maxEvents - prefix - 1;
      assert suffix == 0 ==> events[|events| - suffix..] == [];
    } else {
      prefix, suffix := 0, 0;
      assert events[..0] == [] && events[|events| - 0..] == [];
    }
  }
}
