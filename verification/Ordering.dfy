/** Stable sorting by a total preorder, as Python's `sorted` with a key does it. */
module Ordering {
  import opened Selection

  ghost predicate TotalPreorder<T(!new)>(le: (T, T) -> bool) {
    && (forall x, y :: le(x, y) || le(y, x))
    && (forall x, y, z :: le(x, y) && le(y, z) ==> le(x, z))
  }

  ghost predicate Sorted<T>(s: seq<T>, le: (T, T) -> bool) {
    forall i, j :: 0 <= i < j < |s| ==> le(s[i], s[j])
  }

  /** Insert behind everything that is not greater. */
  function InsertSorted<T>(s: seq<T>, x: T, le: (T, T) -> bool): (r: seq<T>)
    ensures multiset(r) == multiset(s) + multiset{x}
    ensures |r| == |s| + 1
  {
    if s == [] || le(s[|s| - 1], x) then s + [x]
    else
      assert s == s[..|s| - 1] + [s[|s| - 1]];
      InsertSorted(s[..|s| - 1], x, le) + [s[|s| - 1]]
  }

  function SortBy<T>(s: seq<T>, le: (T, T) -> bool): (r: seq<T>)
    ensures multiset(r) == multiset(s) && |r| == |s|
  {
    if s == [] then []
    else
      assert s == s[..|s| - 1] + [s[|s| - 1]];
      InsertSorted(SortBy(s[..|s| - 1], le), s[|s| - 1], le)
  }

  lemma {:induction false} InsertKeepsSorted<T(!new)>(s: seq<T>, x: T, le: (T, T) -> bool)
    requires TotalPreorder(le) && Sorted(s, le)
    ensures Sorted(InsertSorted(s, x, le), le)
  {
    if s != [] && !le(s[|s| - 1], x) {
      var init, last := s[..|s| - 1], s[|s| - 1];
      InsertKeepsSorted(init, x, le);
      var r := InsertSorted(init, x, le);
      forall i | 0 <= i < |r| ensures le(r[i], last) {
        assert r[i] in multiset(r);
        if r[i] != x {
          assert r[i] in init;
        }
      }
    } else if s != [] {
      forall i | 0 <= i < |s| ensures le(s[i], x) {
        assert i < |s| - 1 ==> le(s[i], s[|s| - 1]);
      }
    }
  }

  lemma {:induction false} SortByIsSorted<T(!new)>(s: seq<T>, le: (T, T) -> bool)
    requires TotalPreorder(le)
    ensures Sorted(SortBy(s, le), le)
  {
    if s != [] {
      SortByIsSorted(s[..|s| - 1], le);
      InsertKeepsSorted(SortBy(s[..|s| - 1], le), s[|s| - 1], le);
    }
  }

  /** Distinct elements are never equivalent. */
  ghost predicate KeysDistinct<T>(s: seq<T>, le: (T, T) -> bool) {
    forall i, j :: 0 <= i < |s| && 0 <= j < |s| && le(s[i], s[j]) && le(s[j], s[i]) ==> s[i] == s[j]
  }

  /** In two sorted arrangements of the same elements the last elements are equivalent. */
  lemma {:induction false} LastsAgree<T(!new)>(a: seq<T>, b: seq<T>, le: (T, T) -> bool)
    requires Sorted(a, le) && TotalPreorder(le) && multiset(a) == multiset(b) && a != [] && b != []
    ensures le(b[|b| - 1], a[|a| - 1]) && b[|b| - 1] in a
  {
    var x, y := a[|a| - 1], b[|b| - 1];
    assert y in multiset(a);
    var i :| 0 <= i < |a| && a[i] == y;
    assert i < |a| - 1 ==> le(a[i], x);
  }

  lemma {:induction false} DropLast<T>(a: seq<T>, b: seq<T>)
    requires a != [] && b != [] && multiset(a) == multiset(b) && a[|a| - 1] == b[|b| - 1]
    ensures multiset(a[..|a| - 1]) == multiset(b[..|b| - 1])
  {
    var x := a[|a| - 1];
    assert a == a[..|a| - 1] + [x] && b == b[..|b| - 1] + [x];
    assert multiset(a[..|a| - 1]) == multiset(a) - multiset{x};
    assert multiset(b[..|b| - 1]) == multiset(b) - multiset{x};
  }

  /** Where keys identify elements, there is only one sorted arrangement. */
  lemma {:induction false} SortedIsUnique<T(!new)>(a: seq<T>, b: seq<T>, le: (T, T) -> bool)
    requires TotalPreorder(le) && Sorted(a, le) && Sorted(b, le) && KeysDistinct(a, le)
    requires multiset(a) == multiset(b)
    ensures a == b
  {
    assert |multiset(a)| == |a| && |multiset(b)| == |b|;
    if a != [] {
      LastsAgree(a, b, le);
      LastsAgree(b, a, le);
      DropLast(a, b);
      SortedIsUnique(a[..|a| - 1], b[..|b| - 1], le);
      assert a == a[..|a| - 1] + [a[|a| - 1]] && b == b[..|b| - 1] + [b[|b| - 1]];
    }
  }

  /** So sorting forgets the original arrangement. */
  lemma {:induction false} SortForgetsOrder<T(!new)>(a: seq<T>, b: seq<T>, le: (T, T) -> bool)
    requires TotalPreorder(le) && KeysDistinct(a, le) && multiset(a) == multiset(b)
    ensures SortBy(a, le) == SortBy(b, le)
  {
    SortByIsSorted(a, le);
    SortByIsSorted(b, le);
    var s := SortBy(a, le);
    assert KeysDistinct(s, le) by {
      forall i, j | 0 <= i < |s| && 0 <= j < |s| && le(s[i], s[j]) && le(s[j], s[i]) ensures s[i] == s[j] {
        assert s[i] in multiset(a) && s[j] in multiset(a);
        var i' :| 0 <= i' < |a| && a[i'] == s[i];
        var j' :| 0 <= j' < |a| && a[j'] == s[j];
      }
    }
    SortedIsUnique(s, SortBy(b, le), le);
  }

  // --- stability ---

  /** Equivalent to `c`. */
  function Like<T>(le: (T, T) -> bool, c: T): T -> bool {
    (x: T) => le(c, x) && le(x, c)
  }

  lemma {:induction false} InsertIsStable<T(!new)>(s: seq<T>, x: T, le: (T, T) -> bool, c: T)
    requires TotalPreorder(le)
    ensures Filter(InsertSorted(s, x, le), Like(le, c))
            == Filter(s, Like(le, c)) + (if Like(le, c)(x) then [x] else [])
  {
    if s == [] || le(s[|s| - 1], x) {
      assert (s + [x])[..|s|] == s;
    } else {
      var init, last := s[..|s| - 1], s[|s| - 1];
      InsertIsStable(init, x, le, c);
      var r := InsertSorted(init, x, le);
      assert (r + [last])[..|r|] == r;
      assert !(Like(le, c)(x) && Like(le, c)(last));
    }
  }

  /** Sorting keeps equivalent elements in their original order. */
  lemma {:induction false} SortIsStable<T(!new)>(s: seq<T>, le: (T, T) -> bool, c: T)
    requires TotalPreorder(le)
    ensures Filter(SortBy(s, le), Like(le, c)) == Filter(s, Like(le, c))
  {
    if s != [] {
      SortIsStable(s[..|s| - 1], le, c);
      InsertIsStable(SortBy(s[..|s| - 1], le), s[|s| - 1], le, c);
    }
  }

  lemma {:induction false} BringForward<T>(s: seq<T>, i: nat, j: nat) returns (rest: seq<T>)
    requires i < j < |s|
    ensures multiset([s[i], s[j]] + rest) == multiset(s) == multiset([s[j], s[i]] + rest)
  {
    var a, b, c := s[..i], s[i + 1..j], s[j + 1..];
    rest := a + b + c;
    assert s == a + [s[i]] + b + [s[j]] + c;
  }

  lemma {:induction false} FirstOfFilter<T>(x: T, y: T, rest: seq<T>, keep: T -> bool)
    requires keep(x)
    ensures Filter([x, y] + rest, keep) != [] && Filter([x, y] + rest, keep)[0] == x
  {
    assert [x, y] + rest == [x] + ([y] + rest);
    FilterConcat([x], [y] + rest, keep);
    assert Filter([x][..0], keep) == [];
  }

  lemma {:induction false} FirstStaysFirst<T(!new)>(x: T, y: T, rest: seq<T>, le: (T, T) -> bool, c: T)
    requires TotalPreorder(le) && Like(le, c)(x)
    ensures var sorted := Filter(SortBy([x, y] + rest, le), Like(le, c)); sorted != [] && sorted[0] == x
  {
    FirstOfFilter(x, y, rest, Like(le, c));
    SortIsStable([x, y] + rest, le, c);
  }

  /** Every arrangement of these elements is sorted alike. */
  ghost predicate SortedAlike<T(!new)>(s: seq<T>, le: (T, T) -> bool) {
    forall p: seq<T> :: multiset(p) == multiset(s) ==> SortBy(p, le) == SortBy(s, le)
  }

  lemma {:induction false} TwoArrangements<T(!new)>(s: seq<T>, le: (T, T) -> bool, p: seq<T>, q: seq<T>)
    requires multiset(p) == multiset(s) == multiset(q) && SortBy(p, le) != SortBy(q, le)
    ensures !SortedAlike(s, le)
  {
  }

  lemma {:induction false} PairTellsOrder<T(!new)>(x: T, y: T, rest: seq<T>, le: (T, T) -> bool)
    requires TotalPreorder(le) && le(x, y) && le(y, x) && x != y
    ensures SortBy([x, y] + rest, le) != SortBy([y, x] + rest, le)
  {
    assert Like(le, x)(x) && Like(le, x)(y);
    FirstStaysFirst(x, y, rest, le, x);
    FirstStaysFirst(y, x, rest, le, x);
  }

  lemma {:induction false} EquivalentsTellOrder<T(!new)>(s: seq<T>, le: (T, T) -> bool, i: nat, j: nat)
    requires TotalPreorder(le) && i < j < |s| && le(s[i], s[j]) && le(s[j], s[i]) && s[i] != s[j]
    ensures !SortedAlike(s, le)
  {
    var rest := BringForward(s, i, j);
    PairTellsOrder(s[i], s[j], rest, le);
    TwoArrangements(s, le, [s[i], s[j]] + rest, [s[j], s[i]] + rest);
  }

  /** Sorting forgets the original arrangement exactly when equivalent elements are equal. */
  lemma {:induction false} SortForgetsOrderExactly<T(!new)>(s: seq<T>, le: (T, T) -> bool)
    requires TotalPreorder(le)
    ensures SortedAlike(s, le) <==> KeysDistinct(s, le)
  {
    if KeysDistinct(s, le) {
      forall p: seq<T> | multiset(p) == multiset(s) ensures SortBy(p, le) == SortBy(s, le) {
        SortForgetsOrder(s, p, le);
      }
    } else {
      var i, j :| 0 <= i < |s| && 0 <= j < |s| && le(s[i], s[j]) && le(s[j], s[i]) && s[i] != s[j];
      EquivalentsTellOrder(s, le, if i < j then i else j, if i < j then j else i);
    }
  }
}
