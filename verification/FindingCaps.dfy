/** Counting audit findings and capping how many of each code are shown. */
module FindingCaps {
  import opened Wrappers
  import opened Selection

  datatype Severity = SeverityError | SeverityOther(name: string)
  datatype Finding = Finding(code: string, domain: string, severity: Severity, owner: string)
  datatype Bucket = Bucket(count: nat, omitted: nat, domain: string, severity: Severity, owner: string)

  // --- counting ---

  /** The findings of one code, in order. */
  function OfCode(fs: seq<Finding>, code: string): seq<Finding> {
    if fs == [] then []
    else
      var last := fs[|fs| - 1];
      OfCode(fs[..|fs| - 1], code) + (if last.code == code then [last] else [])
  }

  function CountDomain(fs: seq<Finding>, domain: string): nat {
    if fs == [] then 0 else CountDomain(fs[..|fs| - 1], domain) + (if fs[|fs| - 1].domain == domain then 1 else 0)
  }

  function CountErrors(fs: seq<Finding>): nat {
    if fs == [] then 0 else CountErrors(fs[..|fs| - 1]) + (if fs[|fs| - 1].severity.SeverityError? then 1 else 0)
  }

  function HasCode(code: string): Finding -> bool {
    (f: Finding) => f.code == code
  }

  /** What is counted, finding by finding: those of a code, in order; those of a domain; those of severity error. */
  lemma {:induction false} CountsAreOfFindings(fs: seq<Finding>, text: string)
    ensures OfCode(fs, text) == Filter(fs, HasCode(text)) && Selected(OfCode(fs, text), fs, HasCode(text))
    ensures CountDomain(fs, text) == |set i: nat | i < |fs| && fs[i].domain == text|
    ensures CountErrors(fs) == |set i: nat | i < |fs| && fs[i].severity == SeverityError|
  {
    OfCodeFilters(fs, text);
    FilterSelects(fs, HasCode(text));
    DomainsAreOfFindings(fs, text);
    ErrorsAreOfFindings(fs);
  }

  lemma {:induction false} OfCodeFilters(fs: seq<Finding>, code: string)
    ensures OfCode(fs, code) == Filter(fs, HasCode(code))
  {
    if fs != [] {
      OfCodeFilters(fs[..|fs| - 1], code);
    }
  }

  lemma {:induction false} DomainsAreOfFindings(fs: seq<Finding>, domain: string)
    ensures CountDomain(fs, domain) == |set i: nat | i < |fs| && fs[i].domain == domain|
  {
    if fs != [] {
      var k := |fs| - 1;
      DomainsAreOfFindings(fs[..k], domain);
      var there := (i: nat) => i < |fs| && fs[i].domain == domain;
      OneIndexMore(k, there);
      assert (set i: nat | i < |fs| && fs[i].domain == domain) == Indices(k + 1, there);
      assert (set i: nat | i < |fs[..k]| && fs[..k][i].domain == domain) == Indices(k, there);
    }
  }

  lemma {:induction false} ErrorsAreOfFindings(fs: seq<Finding>)
    ensures CountErrors(fs) == |set i: nat | i < |fs| && fs[i].severity == SeverityError|
  {
    if fs != [] {
      var k := |fs| - 1;
      ErrorsAreOfFindings(fs[..k]);
      var there := (i: nat) => i < |fs| && fs[i].severity == SeverityError;
      OneIndexMore(k, there);
      assert (set i: nat | i < |fs| && fs[i].severity == SeverityError) == Indices(k + 1, there);
      assert (set i: nat | i < |fs[..k]| && fs[..k][i].severity == SeverityError) == Indices(k, there);
    }
  }

  ghost function Sum(m: map<string, nat>): nat {
    if m == map[] then 0 else var k :| k in m; m[k] + Sum(m - {k})
  }

  lemma {:induction false} SumSplits(m: map<string, nat>, k: string)
    requires k in m
    ensures Sum(m) == m[k] + Sum(m - {k})
    decreases |m|
  {
    var k' :| k' in m && Sum(m) == m[k'] + Sum(m - {k'});
    if k' != k {
      SumSplits(m - {k'}, k);
      SumSplits(m - {k}, k');
      assert (m - {k'}) - {k} == (m - {k}) - {k'};
    }
  }

  lemma {:induction false} SumIncrement(m: map<string, nat>, k: string)
    ensures Sum(m[k := (if k in m then m[k] else 0) + 1]) == Sum(m) + 1
  {
    var m' := m[k := (if k in m then m[k] else 0) + 1];
    SumSplits(m', k);
    if k in m {
      SumSplits(m, k);
      assert m' - {k} == m - {k};
    } else {
      assert m' - {k} == m;
    }
  }

  ghost function Counts(byCode: map<string, Bucket>): map<string, nat> {
    map c | c in byCode :: byCode[c].count
  }

  /** The report's summary, whose buckets are updated in place. */
  class Summary {
    var total: nat
    var errors: nat
    var warnings: nat
    var byDomain: map<string, nat>
    var byCode: map<string, Bucket>

    constructor (total: nat, errors: nat, warnings: nat, byDomain: map<string, nat>, byCode: map<string, Bucket>)
      ensures this.total == total && this.errors == errors && this.warnings == warnings
      ensures this.byDomain == byDomain && this.byCode == byCode
    {
      this.total, this.errors, this.warnings := total, errors, warnings;
      this.byDomain, this.byCode := byDomain, byCode;
    }

    /** The summary of these findings. */
    ghost predicate Describes(fs: seq<Finding>)
      reads this
    {
      && total == |fs| && errors == CountErrors(fs) && errors + warnings == total
      && byDomain == DomainMap(fs) && byCode == CodeMap(fs)
    }
  }

  ghost predicate DomainsCounted(byDomain: map<string, nat>, fs: seq<Finding>) {
    forall d :: DomainAt(byDomain, fs, d)
  }

  predicate DomainAt(byDomain: map<string, nat>, fs: seq<Finding>, d: string) {
    (if d in byDomain then byDomain[d] else 0) == CountDomain(fs, d)
  }

  lemma {:induction false} DomainStep(byDomain: map<string, nat>, fs: seq<Finding>, item: Finding)
    requires DomainsCounted(byDomain, fs)
    ensures var after := byDomain[item.domain := (if item.domain in byDomain then byDomain[item.domain] else 0) + 1];
            DomainsCounted(after, fs + [item]) && Sum(after) == Sum(byDomain) + 1
  {
    var after := byDomain[item.domain := (if item.domain in byDomain then byDomain[item.domain] else 0) + 1];
    assert (fs + [item])[..|fs|] == fs;
    forall d ensures DomainAt(after, fs + [item], d) {
      assert DomainAt(byDomain, fs, d);
    }
    SumIncrement(byDomain, item.domain);
  }

  ghost predicate BucketsDescribe(byCode: map<string, Bucket>, fs: seq<Finding>) {
    forall c :: BucketAt(byCode, fs, c)
  }

  predicate BucketAt(byCode: map<string, Bucket>, fs: seq<Finding>, c: string) {
    if c in byCode then OfCode(fs, c) != [] && byCode[c] == FirstBucket(OfCode(fs, c)) else OfCode(fs, c) == []
  }

  function FirstBucket(fs: seq<Finding>): Bucket
    requires fs != []
  {
    Bucket(|fs|, 0, fs[0].domain, fs[0].severity, fs[0].owner)
  }

  /** The bucket of a code after one more finding. */
  function Bumped(byCode: map<string, Bucket>, item: Finding): Bucket {
    if item.code in byCode then byCode[item.code].(count := byCode[item.code].count + 1)
    else Bucket(1, 0, item.domain, item.severity, item.owner)
  }

  lemma {:induction false} OfCodeAppend(fs: seq<Finding>, item: Finding, code: string)
    ensures OfCode(fs + [item], code) == OfCode(fs, code) + (if item.code == code then [item] else [])
  {
    assert (fs + [item])[..|fs|] == fs;
  }

  lemma {:induction false} BucketStep(byCode: map<string, Bucket>, fs: seq<Finding>, item: Finding)
    requires BucketsDescribe(byCode, fs)
    ensures BucketsDescribe(byCode[item.code := Bumped(byCode, item)], fs + [item])
  {
    var after := byCode[item.code := Bumped(byCode, item)];
    forall c ensures BucketAt(after, fs + [item], c) {
      assert BucketAt(byCode, fs, c) && BucketAt(byCode, fs, item.code);
      OfCodeAppend(fs, item, c);
    }
  }

  lemma {:induction false} CountStep(byCode: map<string, Bucket>, item: Finding)
    ensures Sum(Counts(byCode[item.code := Bumped(byCode, item)])) == Sum(Counts(byCode)) + 1
  {
    var counts, after := Counts(byCode), Counts(byCode[item.code := Bumped(byCode, item)]);
    SumIncrement(counts, item.code);
    assert after == counts[item.code := (if item.code in counts then counts[item.code] else 0) + 1];
  }

  /** Both dictionaries count every finding once. */
  ghost predicate Tallied(byDomain: map<string, nat>, byCode: map<string, Bucket>, fs: seq<Finding>) {
    && DomainsCounted(byDomain, fs) && Sum(byDomain) == |fs|
    && BucketsDescribe(byCode, fs) && Sum(Counts(byCode)) == |fs|
  }

  lemma {:induction false} TallyStep(byDomain: map<string, nat>, byCode: map<string, Bucket>, fs: seq<Finding>,
                                     item: Finding)
    requires Tallied(byDomain, byCode, fs)
    ensures Tallied(byDomain[item.domain := (if item.domain in byDomain then byDomain[item.domain] else 0) + 1],
                    byCode[item.code := Bumped(byCode, item)], fs + [item])
  {
    DomainStep(byDomain, fs, item);
    BucketStep(byCode, fs, item);
    CountStep(byCode, item);
  }

  function DomainMap(fs: seq<Finding>): map<string, nat> {
    if fs == [] then map[]
    else
      var m, domain := DomainMap(fs[..|fs| - 1]), fs[|fs| - 1].domain;
      m[domain := (if domain in m then m[domain] else 0) + 1]
  }

  function CodeMap(fs: seq<Finding>): map<string, Bucket> {
    if fs == [] then map[]
    else
      var m, item := CodeMap(fs[..|fs| - 1]), fs[|fs| - 1];
      m[item.code := Bumped(m, item)]
  }

  /** The dictionaries of the summary count every finding once: by domain, by code, and in total; and every bucket
      describes the first finding of its code. */
  lemma {:induction false} SummaryCounts(fs: seq<Finding>)
    ensures Tallied(DomainMap(fs), CodeMap(fs), fs)
  {
    if fs == [] {
      assert Counts(map[]) == map[];
    } else {
      SummaryCounts(fs[..|fs| - 1]);
      TallyStep(DomainMap(fs[..|fs| - 1]), CodeMap(fs[..|fs| - 1]), fs[..|fs| - 1], fs[|fs| - 1]);
      assert fs == fs[..|fs| - 1] + [fs[|fs| - 1]];
    }
  }

  /** The bucket of a code that occurs counts its findings and repeats what the first of them says. */
  lemma {:induction false} BucketRepeatsFirst(fs: seq<Finding>, code: string)
    ensures code in CodeMap(fs) <==> exists i :: 0 <= i < |fs| && fs[i].code == code
    ensures code in CodeMap(fs) ==>
              var ofCode, bucket := Filter(fs, HasCode(code)), CodeMap(fs)[code];
              && ofCode != [] && bucket.count == |ofCode| && bucket.omitted == 0
              && bucket.domain == ofCode[0].domain && bucket.severity == ofCode[0].severity
              && bucket.owner == ofCode[0].owner
  {
    SummaryCounts(fs);
    OfCodeFilters(fs, code);
    CodesOccur(fs, code);
    assert BucketAt(CodeMap(fs), fs, code);
  }

  /** Errors and warnings together are all findings, and the dictionaries are those of `SummaryCounts`. */
  method SummarizeFindings(findings: seq<Finding>) returns (summary: Summary)
    ensures fresh(summary) && summary.Describes(findings)
  {
    var byCode: map<string, Bucket>, byDomain: map<string, nat> := map[], map[];
    var errors, warnings := 0, 0;
    for i := 0 to |findings|
      invariant errors == CountErrors(findings[..i]) && errors + warnings == i
      invariant byDomain == DomainMap(findings[..i]) && byCode == CodeMap(findings[..i])
    {
      var item := findings[i];
      assert findings[..i + 1][..i] == findings[..i];
      byDomain := byDomain[item.domain := (if item.domain in byDomain then byDomain[item.domain] else 0) + 1];
      byCode := byCode[item.code := Bumped(byCode, item)];
      if item.severity.SeverityError? {
        errors := errors + 1;
      } else {
        warnings := warnings + 1;
      }
    }
    assert findings[..|findings|] == findings;
    summary := new Summary(|findings|, errors, warnings, byDomain, byCode);
  }

  // --- capping ---

  function Limit(cap: int): nat {
    if cap > 0 then cap else 0
  }

  function Take<T>(s: seq<T>, n: nat): seq<T> {
    if n <= |s| then s[..n] else s
  }

  /** The kept findings are those of `fs` at these increasing positions. */
  ghost predicate Picks(kept: seq<Finding>, fs: seq<Finding>, at: seq<nat>) {
    && |at| == |kept|
    && (forall i :: 0 <= i < |at| ==> at[i] < |fs| && fs[at[i]] == kept[i])
    && (forall i, j :: 0 <= i < j < |at| ==> at[i] < at[j])
  }

  /** The first `limit` findings of each code, in order, and nothing else: they are picked at increasing positions. */
  ghost predicate CappedTo(kept: seq<Finding>, fs: seq<Finding>, limit: nat, at: seq<nat>) {
    Picks(kept, fs, at) && forall code :: CappedAt(kept, fs, limit, code)
  }

  predicate CappedAt(kept: seq<Finding>, fs: seq<Finding>, limit: nat, code: string) {
    OfCode(kept, code) == Take(OfCode(fs, code), limit)
  }

  lemma {:induction false} PickStep(kept: seq<Finding>, fs: seq<Finding>, item: Finding, at: seq<nat>)
    requires Picks(kept, fs, at)
    ensures Picks(kept, fs + [item], at) && Picks(kept + [item], fs + [item], at + [|fs|])
  {
  }

  lemma {:induction false} CapStep(kept: seq<Finding>, fs: seq<Finding>, item: Finding, limit: nat, at: seq<nat>)
    requires CappedTo(kept, fs, limit, at)
    ensures if |OfCode(fs, item.code)| < limit then CappedTo(kept + [item], fs + [item], limit, at + [|fs|])
            else CappedTo(kept, fs + [item], limit, at)
  {
    var kept' := if |OfCode(fs, item.code)| < limit then kept + [item] else kept;
    PickStep(kept, fs, item, at);
    forall code ensures CappedAt(kept', fs + [item], limit, code) {
      assert CappedAt(kept, fs, limit, code);
      OfCodeAppend(fs, item, code);
      OfCodeAppend(kept, item, code);
    }
  }

  /** What capping leaves of a code's bucket. */
  function Omission(fs: seq<Finding>, code: string, cap: int): nat {
    if |OfCode(fs, code)| > Limit(cap) then |OfCode(fs, code)| - Limit(cap) else 0
  }

  /** The codes in the order of their first findings. */
  function Codes(fs: seq<Finding>): seq<string> {
    if fs == [] then []
    else
      var init, code := fs[..|fs| - 1], fs[|fs| - 1].code;
      Codes(init) + (if OfCode(init, code) == [] then [code] else [])
  }

  lemma {:induction false} CodesOccur(fs: seq<Finding>, c: string)
    ensures c in Codes(fs) <==> OfCode(fs, c) != []
    ensures c in Codes(fs) <==> exists i :: 0 <= i < |fs| && fs[i].code == c
  {
    if fs != [] {
      CodesOccur(fs[..|fs| - 1], c);
      assert fs == fs[..|fs| - 1] + [fs[|fs| - 1]];
    }
  }

  lemma {:induction false} CodesStep(seen: map<string, nat>, fs: seq<Finding>, item: Finding)
    requires SeenSoFar(seen, fs)
    ensures Codes(fs + [item]) == Codes(fs) + (if item.code in seen then [] else [item.code])
  {
    assert (fs + [item])[..|fs|] == fs && SeenAt(seen, fs, item.code);
  }

  /** The loop over the findings: what is kept, and how many of each code went by, codes in order. */
  method KeepFirst(findings: seq<Finding>, cap: nat)
    returns (kept: seq<Finding>, order: seq<string>, seen: map<string, nat>, ghost at: seq<nat>)
    ensures CappedTo(kept, findings, cap, at)
    ensures order == Codes(findings) && SeenSoFar(seen, findings)
  {
    kept, order, seen, at := [], [], map[], [];
    ghost var done: seq<Finding> := [];
    NothingCapped(cap);
    for i := 0 to |findings|
      invariant done == findings[..i]
      invariant CappedTo(kept, done, cap, at)
      invariant order == Codes(done) && SeenSoFar(seen, done)
    {
      var item := findings[i];
      CapStep(kept, done, item, cap, at);
      SeenStep(seen, done, item);
      CodesStep(seen, done, item);
      var current := if item.code in seen then seen[item.code] else 0;
      if current < cap {
        kept, at := kept + [item], at + [|done|];
      }
      if item.code !in seen {
        order := order + [item.code];
      }
      seen := seen[item.code := current + 1];
      done := done + [item];
    }
    assert done == findings;
  }

  lemma {:induction false} NothingCapped(limit: nat)
    ensures CappedTo([], [], limit, []) && SeenSoFar(map[], [])
  {
    assert forall code :: CappedAt([], [], limit, code);
  }

  ghost predicate SeenSoFar(seen: map<string, nat>, fs: seq<Finding>) {
    forall c :: SeenAt(seen, fs, c)
  }

  predicate SeenAt(seen: map<string, nat>, fs: seq<Finding>, c: string) {
    if c in seen then OfCode(fs, c) != [] && seen[c] == |OfCode(fs, c)| else OfCode(fs, c) == []
  }

  lemma {:induction false} SeenStep(seen: map<string, nat>, fs: seq<Finding>, item: Finding)
    requires SeenSoFar(seen, fs)
    ensures |OfCode(fs, item.code)| == if item.code in seen then seen[item.code] else 0
    ensures SeenSoFar(seen[item.code := |OfCode(fs, item.code)| + 1], fs + [item])
  {
    var after := seen[item.code := |OfCode(fs, item.code)| + 1];
    assert SeenAt(seen, fs, item.code);
    forall c ensures SeenAt(after, fs + [item], c) {
      assert SeenAt(seen, fs, c);
      OfCodeAppend(fs, item, c);
    }
  }

  /** The bucket of code `c` after capping. Without a positive cap everything is left out; otherwise only codes that
      occur are touched. */
  function CappedBucket(bucket: Bucket, findings: seq<Finding>, c: string, cap: int): Bucket {
    if cap <= 0 then bucket.(omitted := bucket.count)
    else if OfCode(findings, c) != [] then bucket.(omitted := Omission(findings, c, cap))
    else bucket
  }

  /** Every bucket is as capping leaves it. */
  ghost predicate BucketsCapped(after: map<string, Bucket>, before: map<string, Bucket>, findings: seq<Finding>,
                                cap: int) {
    after.Keys == before.Keys && forall c :: c in before ==> BucketCapped(after, before, findings, cap, c)
  }

  predicate BucketCapped(after: map<string, Bucket>, before: map<string, Bucket>, findings: seq<Finding>, cap: int,
                         c: string) {
    c in after && c in before && after[c] == CappedBucket(before[c], findings, c, cap)
  }

  /** For buckets that described the findings, kept and omitted add up to the count of each code. */
  lemma {:induction false} CappingConserves(after: map<string, Bucket>, before: map<string, Bucket>,
                                            findings: seq<Finding>, kept: seq<Finding>, cap: int, c: string)
    requires BucketsCapped(after, before, findings, cap)
             && (exists at: seq<nat> :: CappedTo(kept, findings, Limit(cap), at))
    requires BucketsDescribe(before, findings) && c in after
    ensures |OfCode(kept, c)| + after[c].omitted == after[c].count == |OfCode(findings, c)|
    ensures after[c] == before[c].(omitted := after[c].omitted)
  {
    var at: seq<nat> :| CappedTo(kept, findings, Limit(cap), at);
    assert BucketCapped(after, before, findings, cap, c);
    assert CappedAt(kept, findings, Limit(cap), c);
    assert BucketAt(before, findings, c);
  }

  /** The buckets of the first codes are as capping leaves them, the others as they were. */
  ghost predicate PartlyCapped(after: map<string, Bucket>, before: map<string, Bucket>, findings: seq<Finding>,
                               cap: int, codes: seq<string>) {
    && after.Keys == before.Keys
    && (forall c :: c in codes ==> BucketCapped(after, before, findings, cap, c))
    && (forall c :: c in before && c !in codes ==> after[c] == before[c])
  }

  /** Code number `n` is the first without a bucket; only the buckets of the codes before it are capped. */
  ghost predicate StoppedAt(after: map<string, Bucket>, before: map<string, Bucket>, findings: seq<Finding>, cap: int,
                            n: nat) {
    && n < |Codes(findings)| && Codes(findings)[n] !in before
    && PartlyCapped(after, before, findings, cap, Codes(findings)[..n])
  }

  lemma {:induction false} CapOneMore(now: map<string, Bucket>, before: map<string, Bucket>, findings: seq<Finding>,
                                      cap: int, codes: seq<string>, c: string, bucket: Bucket)
    requires PartlyCapped(now, before, findings, cap, codes)
    requires c in before && bucket == CappedBucket(before[c], findings, c, cap)
    ensures PartlyCapped(now[c := bucket], before, findings, cap, codes + [c])
  {
    forall k | k in codes + [c] ensures BucketCapped(now[c := bucket], before, findings, cap, k) {
      assert k in codes ==> BucketCapped(now, before, findings, cap, k);
    }
  }

  lemma {:induction false} AllCapped(after: map<string, Bucket>, before: map<string, Bucket>, findings: seq<Finding>,
                                     cap: int)
    requires cap > 0 && PartlyCapped(after, before, findings, cap, Codes(findings))
    ensures BucketsCapped(after, before, findings, cap)
  {
    forall c | c in before ensures BucketCapped(after, before, findings, cap, c) {
      CodesOccur(findings, c);
    }
  }

  /** The loop over the counted codes. A code without a bucket stops it. */
  method NoteOmissions(findings: seq<Finding>, order: seq<string>, seen: map<string, nat>, summary: Summary, cap: nat)
    returns (missing: Option<string>, ghost n: nat)
    requires cap > 0 && order == Codes(findings) && SeenSoFar(seen, findings)
    modifies summary`byCode
    ensures missing.None? ==> n == |order| && PartlyCapped(summary.byCode, old(summary.byCode), findings, cap, order)
    ensures missing.Some? ==> StoppedAt(summary.byCode, old(summary.byCode), findings, cap, n)
                              && missing.value == order[n]
  {
    ghost var before := summary.byCode;
    n := 0;
    for i := 0 to |order|
      invariant n == i && PartlyCapped(summary.byCode, before, findings, cap, order[..i])
    {
      var code := order[i];
      if code !in summary.byCode {
        return Some(code), n;
      }
      CodesOccur(findings, code);
      assert SeenAt(seen, findings, code);
      var omitted := if seen[code] > cap then seen[code] - cap else 0;
      ghost var now := summary.byCode;
      summary.byCode := summary.byCode[code := summary.byCode[code].(omitted := omitted)];
      CapOneMore(now, before, findings, cap, order[..i], code, summary.byCode[code]);
      assert order[..i + 1] == order[..i] + [code];
      n := n + 1;
    }
    assert order[..|order|] == order;
    return None, n;
  }

  /** Keep the first findings of each code and note in the summary how many were left out. With a positive cap it
      raises exactly if some finding has no bucket: it names the first such code, the earlier buckets being done. */
  method CapFindingsByCode(findings: seq<Finding>, summary: Summary, cap: int)
    returns (r: Result<seq<Finding>, string>, ghost at: seq<nat>, ghost n: nat)
    modifies summary`byCode
    ensures r.Err? <==> cap > 0 && exists i :: 0 <= i < |findings| && findings[i].code !in old(summary.byCode)
    ensures r.Ok? ==> CappedTo(r.value, findings, Limit(cap), at)
                      && BucketsCapped(summary.byCode, old(summary.byCode), findings, cap)
    ensures r.Err? ==> StoppedAt(summary.byCode, old(summary.byCode), findings, cap, n) && r.error == Codes(findings)[n]
  {
    at, n := [], 0;
    if cap <= 0 {
      summary.byCode := map c | c in summary.byCode :: summary.byCode[c].(omitted := summary.byCode[c].count);
      forall code ensures CappedAt([], findings, 0, code) {
      }
      return Ok([]), at, n;
    }
    ghost var before := summary.byCode;
    var kept, order, seen;
    kept, order, seen, at := KeepFirst(findings, cap);
    var missing;
    missing, n := NoteOmissions(findings, order, seen, summary, cap);
    match missing
    case Some(code) =>
      CodesOccur(findings, code);
      return Err(code), at, n;
    case None =>
      AllCapped(summary.byCode, before, findings, cap);
      forall i | 0 <= i < |findings| ensures findings[i].code in before {
        CodesOccur(findings, findings[i].code);
        assert BucketCapped(summary.byCode, before, findings, cap, findings[i].code);
      }
      return Ok(kept), at, n;
  }
}
