/** The qualification score of the privacy guard benchmark, in exact arithmetic. */
module PrivacyBenchmark {
  import opened Wrappers
  import opened Ordering
  import opened Selection

  datatype Thresholds = Thresholds(minimumRecall: real, minimumSpecificity: real, minimumValidJson: real,
                                   maximumP95: real)

  datatype Metrics = Metrics(recall: real, specificity: real, validJson: real, p95: real, qualified: bool)

  datatype ScoreError = LengthMismatch

  function DefaultThresholds(): Thresholds {
    Thresholds(0.95, 0.90, 0.99, 12000.0)
  }

  const LE: (real, real) -> bool := (a: real, b: real) => a <= b

  // --- counting ---

  function Count<T>(s: seq<T>, p: T -> bool): (n: nat)
    ensures n <= |s|
  {
    if s == [] then 0 else Count(s[..|s| - 1], p) + (if p(s[|s| - 1]) then 1 else 0)
  }

  function Positives(expected: seq<bool>): nat {
    Count(expected, (e: bool) => e)
  }

  /** How many of the cases with this expectation were predicted so. */
  function Hits(expected: seq<bool>, predicted: seq<bool>, value: bool): (n: nat)
    requires |expected| == |predicted|
    ensures n <= |expected|
  {
    if expected == [] then 0
    else
      var k := |expected| - 1;
      Hits(expected[..k], predicted[..k], value) + (if expected[k] == value && predicted[k] == value then 1 else 0)
  }

  function AtLeastOne(n: nat): real {
    (if n < 1 then 1 else n) as real
  }

  /** Least whole number not below 95 hundredths of n. */
  function Ceil95(n: nat): (r: nat)
    ensures n > 0 ==> 1 <= r <= n
  {
    (19 * n + 19) / 20
  }

  lemma {:induction false} Ceil95IsCeiling(n: nat)
    ensures Ceil95(n) as real >= n as real * 0.95 && Ceil95(n) as real < n as real * 0.95 + 1.0
  {
  }

  /** The nearest-rank 95th percentile, zero for no latencies. */
  function P95(latencies: seq<real>): real {
    var ordered := SortBy(latencies, LE);
    if ordered == [] then 0.0
    else
      var rank := Ceil95(|ordered|) - 1;
      ordered[if rank > 0 then rank else 0]
  }

  function Score(expected: seq<bool>, predicted: seq<bool>, latencies: seq<real>, validJson: nat,
                 thresholds: Option<Thresholds>): Result<Metrics, ScoreError> {
    if |expected| != |predicted| || |expected| != |latencies| then Err(LengthMismatch)
    else
      var limits := thresholds.GetOr(DefaultThresholds());
      var positives := Positives(expected);
      var negatives := |expected| - positives;
      var p95 := P95(latencies);
      var recall := Hits(expected, predicted, true) as real / AtLeastOne(positives);
      var specificity := Hits(expected, predicted, false) as real / AtLeastOne(negatives);
      var jsonRate := validJson as real / AtLeastOne(|expected|);
      Ok(Metrics(recall, specificity, jsonRate, p95,
                 && recall >= limits.minimumRecall
                 && specificity >= limits.minimumSpecificity
                 && jsonRate >= limits.minimumValidJson
                 && p95 <= limits.maximumP95))
  }

  // --- the percentile ---

  lemma {:induction false} LeIsPreorder()
    ensures TotalPreorder(LE)
  {
  }

  lemma {:induction false} CountSplits<T>(s: seq<T>, k: nat, p: T -> bool)
    requires k <= |s|
    ensures Count(s, p) == Count(s[..k], p) + Count(s[k..], p)
    decreases |s| - k
  {
    if k == |s| {
      assert s[..k] == s && s[k..] == [];
    } else {
      var init := s[..|s| - 1];
      CountSplits(init, k, p);
      assert init[..k] == s[..k] && s[k..][..|s| - 1 - k] == init[k..];
    }
  }

  lemma {:induction false} CountAll<T>(s: seq<T>, p: T -> bool)
    ensures (forall i :: 0 <= i < |s| ==> p(s[i])) ==> Count(s, p) == |s|
    ensures (forall i :: 0 <= i < |s| ==> !p(s[i])) ==> Count(s, p) == 0
  {
    if s != [] {
      CountAll(s[..|s| - 1], p);
    }
  }

  lemma {:induction false} CountInsert<T>(s: seq<T>, x: T, le: (T, T) -> bool, p: T -> bool)
    ensures Count(InsertSorted(s, x, le), p) == Count(s, p) + (if p(x) then 1 else 0)
  {
    if s == [] || le(s[|s| - 1], x) {
      assert (s + [x])[..|s|] == s;
    } else {
      var init, last := s[..|s| - 1], s[|s| - 1];
      CountInsert(init, x, le, p);
      var r := InsertSorted(init, x, le);
      assert (r + [last])[..|r|] == r;
    }
  }

  /** Sorting does not change how many elements have a property. */
  lemma {:induction false} CountSorted<T>(s: seq<T>, le: (T, T) -> bool, p: T -> bool)
    ensures Count(SortBy(s, le), p) == Count(s, p)
  {
    if s != [] {
      CountSorted(s[..|s| - 1], le, p);
      CountInsert(SortBy(s[..|s| - 1], le), s[|s| - 1], le, p);
    }
  }

  function AtMost(v: real): real -> bool {
    (x: real) => x <= v
  }

  function Below(v: real): real -> bool {
    (x: real) => x < v
  }

  lemma {:induction false} RankInSorted(s: seq<real>, k: nat)
    requires k < |s| && forall i, j :: 0 <= i < j < |s| ==> s[i] <= s[j]
    ensures Count(s, AtMost(s[k])) >= k + 1
    ensures Count(s, Below(s[k])) <= k
  {
    CountSplits(s, k + 1, AtMost(s[k]));
    CountAll(s[..k + 1], AtMost(s[k]));
    CountSplits(s, k, Below(s[k]));
    CountAll(s[k..], Below(s[k]));
  }

  lemma {:induction false} SortedMeansIncreasing(s: seq<real>)
    requires Sorted(s, LE)
    ensures forall i, j :: 0 <= i < j < |s| ==> s[i] <= s[j]
  {
    forall i, j | 0 <= i < j < |s| ensures s[i] <= s[j] {
      assert LE(s[i], s[j]);
    }
  }

  lemma {:induction false} P95IsRanked(latencies: seq<real>) returns (s: seq<real>, k: nat)
    requires latencies != []
    ensures s == SortBy(latencies, LE) && k == Ceil95(|latencies|) - 1
    ensures k < |s| && s[k] == P95(latencies) && s[k] in latencies
    ensures forall i, j :: 0 <= i < j < |s| ==> s[i] <= s[j]
  {
    s, k := SortBy(latencies, LE), Ceil95(|latencies|) - 1;
    LeIsPreorder();
    SortByIsSorted(latencies, LE);
    SortedMeansIncreasing(s);
    assert s[k] in multiset(latencies);
  }

  /** At least 95 percent of the latencies are no higher than the reported one, and fewer are lower. */
  lemma {:induction false} P95IsNearestRank(latencies: seq<real>)
    requires latencies != []
    ensures P95(latencies) in latencies
    ensures Count(latencies, AtMost(P95(latencies))) >= Ceil95(|latencies|)
    ensures Count(latencies, Below(P95(latencies))) <= Ceil95(|latencies|) - 1
  {
    var s, k := P95IsRanked(latencies);
    RankInSorted(s, k);
    CountSorted(latencies, LE, AtMost(s[k]));
    CountSorted(latencies, LE, Below(s[k]));
  }

  /** The percentile does not depend on the order in which the latencies were measured. */
  lemma {:induction false} P95ForgetsOrder(a: seq<real>, b: seq<real>)
    requires multiset(a) == multiset(b)
    ensures P95(a) == P95(b)
  {
    LeIsPreorder();
    assert |multiset(a)| == |a| && |multiset(b)| == |b|;
    SortForgetsOrder(a, b, LE);
  }

  // --- the rates ---

  lemma {:induction false} HitsAreBounded(expected: seq<bool>, predicted: seq<bool>)
    requires |expected| == |predicted|
    ensures Hits(expected, predicted, true) <= Positives(expected)
    ensures Hits(expected, predicted, false) <= |expected| - Positives(expected)
  {
    if expected != [] {
      var k := |expected| - 1;
      HitsAreBounded(expected[..k], predicted[..k]);
    }
  }

  lemma {:induction false} RatioGrows(a: real, b: real, c: real)
    requires a <= b && c > 0.0
    ensures a / c <= b / c
  {
    assert b / c - a / c == (b - a) / c;
  }

  lemma {:induction false} RatioInUnit(n: nat, d: nat)
    requires n <= d
    ensures 0.0 <= n as real / AtLeastOne(d) <= 1.0
  {
    RatioGrows(0.0, n as real, AtLeastOne(d));
    RatioGrows(n as real, AtLeastOne(d), AtLeastOne(d));
  }

  /** Recall and specificity are proportions. */
  lemma {:induction false} RatesAreProportions(expected: seq<bool>, predicted: seq<bool>, latencies: seq<real>,
                                               validJson: nat, thresholds: Option<Thresholds>)
    requires |expected| == |predicted| == |latencies|
    ensures var r := Score(expected, predicted, latencies, validJson, thresholds);
            r.Ok? && 0.0 <= r.value.recall <= 1.0 && 0.0 <= r.value.specificity <= 1.0
  {
    HitsAreBounded(expected, predicted);
    RatioInUnit(Hits(expected, predicted, true), Positives(expected));
    RatioInUnit(Hits(expected, predicted, false), |expected| - Positives(expected));
  }

  /** The cases with this expectation, and those of them that were predicted so. */
  ghost function CasesOf(expected: seq<bool>, value: bool): set<nat> {
    set i: nat | i < |expected| && expected[i] == value
  }

  ghost function RightOf(expected: seq<bool>, predicted: seq<bool>, value: bool): set<nat>
    requires |expected| == |predicted|
  {
    set i: nat | i < |expected| && expected[i] == value && predicted[i] == value
  }

  lemma {:induction false} HitsAreRight(expected: seq<bool>, predicted: seq<bool>, value: bool)
    requires |expected| == |predicted|
    ensures Hits(expected, predicted, value) == |RightOf(expected, predicted, value)|
  {
    if expected != [] {
      var k := |expected| - 1;
      HitsAreRight(expected[..k], predicted[..k], value);
      var right := (i: nat) => i < |expected| && expected[i] == value && predicted[i] == value;
      OneIndexMore(k, right);
      assert RightOf(expected, predicted, value) == Indices(k + 1, right);
      assert RightOf(expected[..k], predicted[..k], value) == Indices(k, right);
    }
  }

  lemma {:induction false} PositivesAreCases(expected: seq<bool>)
    ensures Positives(expected) == |CasesOf(expected, true)|
    ensures |expected| - Positives(expected) == |CasesOf(expected, false)|
  {
    PerfectHits(expected);
    HitsAreRight(expected, expected, true);
    HitsAreRight(expected, expected, false);
    assert RightOf(expected, expected, true) == CasesOf(expected, true);
    assert RightOf(expected, expected, false) == CasesOf(expected, false);
  }

  /** `rate` is the share of `part` in `whole`, a whole of none counting as one. */
  predicate IsShare(rate: real, part: nat, whole: nat) {
    rate * (if whole == 0 then 1.0 else whole as real) == part as real
  }

  lemma {:induction false} ShareOf(part: nat, whole: nat)
    ensures IsShare(part as real / AtLeastOne(whole), part, whole)
  {
  }

  /** All four measures reach the limits given, or else 0.95, 0.90, 0.99 and 12000. */
  predicate ReachesLimits(m: Metrics, thresholds: Option<Thresholds>) {
    match thresholds
    case Some(limits) =>
      && m.recall >= limits.minimumRecall && m.specificity >= limits.minimumSpecificity
      && m.validJson >= limits.minimumValidJson && m.p95 <= limits.maximumP95
    case None => m.recall >= 0.95 && m.specificity >= 0.90 && m.validJson >= 0.99 && m.p95 <= 12000.0
  }

  /** The score over the cases themselves: recall is the share of the positive cases predicted positive, specificity
      that of the negative cases predicted negative, and a model qualifies if and only if all measures reach their
      limits. */
  lemma {:induction false} ScoreIsExact(expected: seq<bool>, predicted: seq<bool>, latencies: seq<real>, validJson: nat,
                                        thresholds: Option<Thresholds>)
    ensures var r := Score(expected, predicted, latencies, validJson, thresholds);
            && (r.Ok? <==> |expected| == |predicted| == |latencies|)
            && (r.Ok? ==>
                  && IsShare(r.value.recall, |RightOf(expected, predicted, true)|, |CasesOf(expected, true)|)
                  && IsShare(r.value.specificity, |RightOf(expected, predicted, false)|, |CasesOf(expected, false)|)
                  && IsShare(r.value.validJson, validJson, |expected|)
                  && r.value.p95 == P95(latencies)
                  && (r.value.qualified <==> ReachesLimits(r.value, thresholds)))
  {
    if |expected| == |predicted| == |latencies| {
      HitsAreRight(expected, predicted, true);
      HitsAreRight(expected, predicted, false);
      PositivesAreCases(expected);
      ShareOf(Hits(expected, predicted, true), Positives(expected));
      ShareOf(Hits(expected, predicted, false), |expected| - Positives(expected));
      ShareOf(validJson, |expected|);
    }
  }

  lemma {:induction false} CorrectingAddsOneHit(expected: seq<bool>, predicted: seq<bool>, i: nat)
    requires |expected| == |predicted| && i < |expected| && predicted[i] != expected[i]
    ensures Hits(expected, predicted[i := expected[i]], expected[i]) == Hits(expected, predicted, expected[i]) + 1
    ensures Hits(expected, predicted[i := expected[i]], !expected[i]) == Hits(expected, predicted, !expected[i])
  {
    var better, value := predicted[i := expected[i]], expected[i];
    HitsAreRight(expected, better, value);
    HitsAreRight(expected, predicted, value);
    HitsAreRight(expected, better, !value);
    HitsAreRight(expected, predicted, !value);
    OneMoreRight(expected, predicted, i);
    assert |RightOf(expected, predicted, value) + {i}| == |RightOf(expected, predicted, value)| + 1;
  }

  lemma {:induction false} OneMoreRight(expected: seq<bool>, predicted: seq<bool>, i: nat)
    requires |expected| == |predicted| && i < |expected| && predicted[i] != expected[i]
    ensures var better, value := predicted[i := expected[i]], expected[i];
            && i !in RightOf(expected, predicted, value)
            && RightOf(expected, better, value) == RightOf(expected, predicted, value) + {i}
            && RightOf(expected, better, !value) == RightOf(expected, predicted, !value)
  {
  }

  /** Correcting a wrong prediction raises the rate of its kind and leaves the other alone. */
  lemma {:induction false} CorrectingRaisesItsRate(expected: seq<bool>, predicted: seq<bool>, latencies: seq<real>,
                                                   validJson: nat, thresholds: Option<Thresholds>, i: nat)
    requires |expected| == |predicted| == |latencies| && i < |expected| && predicted[i] != expected[i]
    ensures var before := Score(expected, predicted, latencies, validJson, thresholds).value;
            var after := Score(expected, predicted[i := expected[i]], latencies, validJson, thresholds).value;
            if expected[i] then after.recall > before.recall && after.specificity == before.specificity
            else after.specificity > before.specificity && after.recall == before.recall
  {
    CorrectingAddsOneHit(expected, predicted, i);
    var cases := if expected[i] then Positives(expected) else |expected| - Positives(expected);
    RatioRises(Hits(expected, predicted, expected[i]) as real, AtLeastOne(cases));
  }

  lemma {:induction false} RatioRises(a: real, c: real)
    requires c > 0.0
    ensures (a + 1.0) / c > a / c
  {
    assert (a + 1.0) / c - a / c == 1.0 / c;
  }

  lemma {:induction false} CorrectingAddsHits(expected: seq<bool>, predicted: seq<bool>, i: nat, value: bool)
    requires |expected| == |predicted| && i < |expected|
    ensures Hits(expected, predicted[i := expected[i]], value) >= Hits(expected, predicted, value)
  {
    var k := |expected| - 1;
    var corrected := predicted[i := expected[i]];
    if i < k {
      assert corrected[..k] == predicted[..k][i := expected[..k][i]];
      CorrectingAddsHits(expected[..k], predicted[..k], i, value);
    } else {
      assert corrected[..k] == predicted[..k];
    }
  }

  /** Correcting a prediction never costs a model its qualification. */
  lemma {:induction false} CorrectingKeepsQualified(expected: seq<bool>, predicted: seq<bool>, latencies: seq<real>,
                                                    validJson: nat, thresholds: Option<Thresholds>, i: nat)
    requires |expected| == |predicted| == |latencies| && i < |expected|
    requires Score(expected, predicted, latencies, validJson, thresholds).value.qualified
    ensures Score(expected, predicted[i := expected[i]], latencies, validJson, thresholds).value.qualified
  {
    var better := predicted[i := expected[i]];
    CorrectingAddsHits(expected, predicted, i, true);
    CorrectingAddsHits(expected, predicted, i, false);
    var positives := Positives(expected);
    RatioGrows(Hits(expected, predicted, true) as real, Hits(expected, better, true) as real, AtLeastOne(positives));
    RatioGrows(Hits(expected, predicted, false) as real, Hits(expected, better, false) as real,
               AtLeastOne(|expected| - positives));
  }

  lemma {:induction false} PerfectHits(expected: seq<bool>)
    ensures Hits(expected, expected, true) == Positives(expected)
    ensures Hits(expected, expected, false) == |expected| - Positives(expected)
  {
    if expected != [] {
      PerfectHits(expected[..|expected| - 1]);
    }
  }

  /** The rate of a predictor that is always right: one, or zero if there is no case to be right about. */
  function FullRate(cases: nat): real {
    if cases == 0 then 0.0 else 1.0
  }

  lemma {:induction false} PerfectRate(n: nat)
    ensures n as real / AtLeastOne(n) == FullRate(n)
  {
  }

  /** A predictor that is always right qualifies if and only if the corpus can satisfy both thresholds (a positive
      threshold needs a case of its kind), enough answers were valid JSON, and the percentile is low enough. */
  lemma {:induction false} PerfectPredictorQualifies(expected: seq<bool>, latencies: seq<real>, validJson: nat,
                                                     thresholds: Option<Thresholds>)
    requires |expected| == |latencies|
    ensures var limits := thresholds.GetOr(DefaultThresholds());
            Score(expected, expected, latencies, validJson, thresholds).value.qualified
            <==> && limits.minimumRecall <= FullRate(Positives(expected))
                 && limits.minimumSpecificity <= FullRate(|expected| - Positives(expected))
                 && limits.minimumValidJson <= validJson as real / AtLeastOne(|expected|)
                 && P95(latencies) <= limits.maximumP95
  {
    PerfectHits(expected);
    PerfectRate(Positives(expected));
    PerfectRate(|expected| - Positives(expected));
  }

  /** With a positive threshold on recall, a corpus without sensitive cases qualifies no model, not even a perfect
      one; so too for specificity and a corpus of sensitive cases only. */
  lemma {:induction false} OneSidedCorpusQualifiesNobody(expected: seq<bool>, predicted: seq<bool>,
                                                         latencies: seq<real>, validJson: nat,
                                                         thresholds: Option<Thresholds>)
    requires |expected| == |predicted| == |latencies|
    requires var limits := thresholds.GetOr(DefaultThresholds());
             || (Positives(expected) == 0 && limits.minimumRecall > 0.0)
             || (Positives(expected) == |expected| && limits.minimumSpecificity > 0.0)
    ensures !Score(expected, predicted, latencies, validJson, thresholds).value.qualified
  {
    HitsAreBounded(expected, predicted);
  }
}
