/** Which lines lie inside `#[cfg(test)]` blocks, found by counting braces line by line. */
module CfgTestLines {
  import opened Text
  import opened Selection

  function Count(line: string, c: char): nat {
    if line == "" then 0 else (if line[0] == c then 1 else 0) + Count(line[1..], c)
  }

  /** The count is the number of positions where the character stands. */
  lemma {:induction false} CountIsOfPositions(line: string, c: char)
    ensures Count(line, c) == |set i: nat | i < |line| && line[i] == c|
  {
    if line != "" {
      var k := |line| - 1;
      CountIsOfPositions(line[..k], c);
      CountLast(line, c);
      var stands := (i: nat) => i < |line| && line[i] == c;
      OneIndexMore(k, stands);
      assert (set i: nat | i < |line| && line[i] == c) == Indices(k + 1, stands);
      assert (set i: nat | i < |line[..k]| && line[..k][i] == c) == Indices(k, stands);
    }
  }

  lemma {:induction false} CountLast(line: string, c: char)
    requires line != ""
    ensures Count(line, c) == Count(line[..|line| - 1], c) + (if line[|line| - 1] == c then 1 else 0)
  {
    if |line| > 1 {
      CountLast(line[1..], c);
      assert line[1..][..|line| - 2] == line[..|line| - 1][1..];
    }
  }

  /** Opening minus closing braces on the lines from `start` up to but excluding `end`. */
  function Balance(lines: seq<string>, start: nat, end: nat): int
    requires start <= end <= |lines|
  {
    if start == end then 0
    else Balance(lines, start, end - 1) + Count(lines[end - 1], '{') - Count(lines[end - 1], '}')
  }

  function MarkerText(): string {
    "#[cfg(test)]"
  }

  predicate MarkerLine(lines: seq<string>, k: nat) {
    k < |lines| && Contains(lines[k], MarkerText())
  }

  predicate OpensBrace(lines: seq<string>, k: nat) {
    k < |lines| && '{' in lines[k]
  }

  /** A block that starts at `start` may end with line `j`: a brace was opened by then and all are closed again. */
  ghost predicate Closes(lines: seq<string>, start: nat, j: nat) {
    && start <= j < |lines|
    && (exists k :: start <= k <= j && OpensBrace(lines, k))
    && Balance(lines, start, j + 1) <= 0
  }

  datatype Interval = Interval(start: nat, end: nat) {
    predicate Covers(k: nat) {
      start <= k < end
    }
  }

  /** The block of a marker line: up to and including the first line that closes it, or to the end of the file. */
  ghost predicate IsBlock(lines: seq<string>, b: Interval) {
    && b.start < b.end <= |lines|
    && MarkerLine(lines, b.start)
    && (forall j :: b.start <= j < b.end - 1 ==> !Closes(lines, b.start, j))
    && (Closes(lines, b.start, b.end - 1) || b.end == |lines|)
  }

  ghost predicate Covered(blocks: seq<Interval>, k: nat) {
    exists b :: 0 <= b < |blocks| && blocks[b].Covers(k)
  }

  /** The blocks are disjoint and in order, and every marker line before `upto` is inside one. */
  ghost predicate Tiles(lines: seq<string>, blocks: seq<Interval>, upto: nat) {
    && (forall b :: 0 <= b < |blocks| ==> IsBlock(lines, blocks[b]) && blocks[b].end <= upto)
    && (forall b, c :: 0 <= b < c < |blocks| ==> blocks[b].end <= blocks[c].start)
    && (forall k :: 0 <= k < upto && MarkerLine(lines, k) ==> Covered(blocks, k))
  }

  /** Exactly the covered lines, numbered from one. */
  ghost predicate Numbers(skip: set<nat>, blocks: seq<Interval>) {
    forall n: nat :: n in skip <==> n > 0 && Covered(blocks, n - 1)
  }

  lemma {:induction false} CoverMore(blocks: seq<Interval>, b: Interval, k: nat)
    ensures Covered(blocks + [b], k) <==> Covered(blocks, k) || b.Covers(k)
  {
    if Covered(blocks, k) {
      var i :| 0 <= i < |blocks| && blocks[i].Covers(k);
      assert (blocks + [b])[i].Covers(k);
    }
    if b.Covers(k) {
      assert (blocks + [b])[|blocks|].Covers(k);
    }
  }

  lemma {:induction false} TileMore(lines: seq<string>, blocks: seq<Interval>, b: Interval)
    requires Tiles(lines, blocks, b.start) && IsBlock(lines, b)
    ensures Tiles(lines, blocks + [b], b.end)
  {
    forall k | 0 <= k < b.end && MarkerLine(lines, k) ensures Covered(blocks + [b], k) {
      CoverMore(blocks, b, k);
    }
  }

  lemma {:induction false} NumberMore(skip: set<nat>, inside: set<nat>, blocks: seq<Interval>, b: Interval)
    requires Numbers(skip, blocks) && forall m: nat :: m in inside <==> b.start < m <= b.end
    ensures Numbers(skip + inside, blocks + [b])
  {
    forall n: nat ensures n in skip + inside <==> n > 0 && Covered(blocks + [b], n - 1) {
      if n > 0 {
        CoverMore(blocks, b, n - 1);
      }
    }
  }

  /** The numbers of the lines of a tiling of the whole file. */
  ghost predicate AreTestLines(lines: seq<string>, skip: set<nat>) {
    exists blocks :: Tiles(lines, blocks, |lines|) && Numbers(skip, blocks)
  }

  /** The numbers of the lines to skip. */
  method TestLines(lines: seq<string>) returns (skip: set<nat>)
    ensures AreTestLines(lines, skip)
    ensures forall k, i: nat :: 0 <= k < |lines| && OccursAt(lines[k], "#[cfg(test)]", i) ==> k + 1 in skip
  {
    skip := {};
    ghost var blocks: seq<Interval> := [];
    var i, n := 0, |lines|;
    while i < n
      invariant 0 <= i <= n
      invariant Tiles(lines, blocks, i) && Numbers(skip, blocks)
    {
      if Contains(lines[i], MarkerText()) {
        var end, inside := BlockEnd(lines, i);
        ghost var b := Interval(i, end);
        NumberMore(skip, inside, blocks, b);
        TileMore(lines, blocks, b);
        skip, blocks := skip + inside, blocks + [b];
        i := end;
      } else {
        i := i + 1;
      }
    }
  }

  /** The inner scan: from a marker line to the line that closes its block. */
  method BlockEnd(lines: seq<string>, i: nat) returns (end: nat, inside: set<nat>)
    requires MarkerLine(lines, i)
    ensures IsBlock(lines, Interval(i, end))
    ensures forall m: nat :: m in inside <==> i < m <= end
  {
    var depth, started, j := 0, false, i;
    inside := {};
    while j < |lines|
      invariant i <= j <= |lines|
      invariant depth == Balance(lines, i, j)
      invariant started <==> exists k :: i <= k < j && OpensBrace(lines, k)
      invariant forall j' :: i <= j' < j ==> !Closes(lines, i, j')
      invariant forall m: nat :: m in inside <==> i < m <= j
    {
      depth := depth + Count(lines[j], '{') - Count(lines[j], '}');
      inside := inside + {j + 1};
      if '{' in lines[j] {
        assert OpensBrace(lines, j);
        started := true;
      }
      assert started <==> exists k :: i <= k <= j && OpensBrace(lines, k);
      if started && depth <= 0 {
        return j + 1, inside;
      }
      j := j + 1;
    }
    return |lines|, inside;
  }

  // --- the tiling determines the answer ---

  lemma {:induction false} SameStartSameBlock(lines: seq<string>, a: Interval, b: Interval)
    requires IsBlock(lines, a) && IsBlock(lines, b) && a.start == b.start
    ensures a == b
  {
  }

  lemma {:induction false} SamePrefix(xs: seq<Interval>, ys: seq<Interval>, n: nat, b: nat)
    requires b < n <= |xs| && n <= |ys| && xs[..n] == ys[..n]
    ensures xs[b] == ys[b]
  {
    assert xs[b] == xs[..n][b] && ys[b] == ys[..n][b];
  }

  /** A block of one tiling starts where a block of any other tiling starts, if the blocks before agree. */
  lemma {:induction false} NextStartsNoEarlier(lines: seq<string>, xs: seq<Interval>, ys: seq<Interval>, n: nat,
                                               upto: nat)
    requires Tiles(lines, xs, upto) && Tiles(lines, ys, upto)
    requires n < |xs| && n <= |ys| && xs[..n] == ys[..n]
    ensures n < |ys| && ys[n].start <= xs[n].start
  {
    var k := xs[n].start;
    assert IsBlock(lines, xs[n]);
    assert Covered(ys, k);
    var b :| 0 <= b < |ys| && ys[b].Covers(k);
    if b < n {
      SamePrefix(xs, ys, n, b);
    } else if b > n {
      assert IsBlock(lines, ys[n]);
    }
  }

  lemma {:induction false} TilingIsUnique(lines: seq<string>, xs: seq<Interval>, ys: seq<Interval>, n: nat)
    requires Tiles(lines, xs, |lines|) && Tiles(lines, ys, |lines|)
    requires n <= |xs| && n <= |ys| && xs[..n] == ys[..n]
    ensures xs == ys
    decreases |xs| - n
  {
    if n < |xs| {
      NextStartsNoEarlier(lines, xs, ys, n, |lines|);
      NextStartsNoEarlier(lines, ys, xs, n, |lines|);
      SameStartSameBlock(lines, xs[n], ys[n]);
      assert xs[..n + 1] == xs[..n] + [xs[n]] && ys[..n + 1] == ys[..n] + [ys[n]];
      TilingIsUnique(lines, xs, ys, n + 1);
    } else if n < |ys| {
      NextStartsNoEarlier(lines, ys, xs, n, |lines|);
    } else {
      assert xs[..n] == xs && ys[..n] == ys;
    }
  }

  /** So there is only one set of lines to skip, the one the scan returns. */
  lemma {:induction false} TestLinesAreDetermined(lines: seq<string>, skip: set<nat>, skip': set<nat>)
    requires AreTestLines(lines, skip) && AreTestLines(lines, skip')
    ensures skip == skip'
  {
    var xs :| Tiles(lines, xs, |lines|) && Numbers(skip, xs);
    var ys :| Tiles(lines, ys, |lines|) && Numbers(skip', ys);
    TilingIsUnique(lines, xs, ys, 0);
    forall n: nat ensures n in skip <==> n in skip' {
    }
  }
}
