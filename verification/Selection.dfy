/** Keeping the elements of a sequence that have a property, in order. */
module Selection {
  function Filter<T>(s: seq<T>, keep: T -> bool): seq<T> {
    if s == [] then []
    else
      var last := s[|s| - 1];
      Filter(s[..|s| - 1], keep) + (if keep(last) then [last] else [])
  }

  /** `r` is what stands in `s` at these positions: in order, and exactly where the property holds. */
  ghost predicate SelectedAt<T>(r: seq<T>, s: seq<T>, keep: T -> bool, at: seq<nat>) {
    && |at| == |r|
    && (forall i :: 0 <= i < |at| ==> at[i] < |s| && r[i] == s[at[i]])
    && (forall i, j :: 0 <= i < j < |at| ==> at[i] < at[j])
    && (forall k :: 0 <= k < |s| ==> (k in at <==> keep(s[k])))
  }

  ghost predicate Selected<T>(r: seq<T>, s: seq<T>, keep: T -> bool) {
    exists at: seq<nat> :: SelectedAt(r, s, keep, at)
  }

  lemma {:induction false} SelectOneMore<T>(r: seq<T>, s: seq<T>, keep: T -> bool, at: seq<nat>, x: T)
    requires SelectedAt(r, s, keep, at)
    ensures if keep(x) then SelectedAt(r + [x], s + [x], keep, at + [|s|]) else SelectedAt(r, s + [x], keep, at)
  {
    assert forall i :: 0 <= i < |at| ==> at[i] in at;
    var at' := if keep(x) then at + [|s|] else at;
    forall k | 0 <= k < |s + [x]| ensures k in at' <==> keep((s + [x])[k]) {
      if k < |s| {
        assert k in at' <==> k in at;
      } else {
        assert keep(x) ==> at'[|at|] == k;
      }
    }
  }

  lemma {:induction false} FilterSelectsAt<T>(s: seq<T>, keep: T -> bool) returns (at: seq<nat>)
    ensures SelectedAt(Filter(s, keep), s, keep, at)
  {
    at := [];
    if s != [] {
      var n := |s| - 1;
      at := FilterSelectsAt(s[..n], keep);
      SelectOneMore(Filter(s[..n], keep), s[..n], keep, at, s[n]);
      assert s == s[..n] + [s[n]];
      if keep(s[n]) {
        at := at + [n];
      }
    }
  }

  lemma {:induction false} FilterSelects<T>(s: seq<T>, keep: T -> bool)
    ensures Selected(Filter(s, keep), s, keep)
  {
    var at := FilterSelectsAt(s, keep);
  }

  lemma {:induction false} FilterConcat<T>(a: seq<T>, b: seq<T>, keep: T -> bool)
    ensures Filter(a + b, keep) == Filter(a, keep) + Filter(b, keep)
  {
    if b == [] {
      assert a + b == a;
    } else {
      assert (a + b)[..|a + b| - 1] == a + b[..|b| - 1];
      FilterConcat(a, b[..|b| - 1], keep);
    }
  }

  lemma {:induction false} SelectedElements<T>(r: seq<T>, s: seq<T>, keep: T -> bool, x: T)
    requires Selected(r, s, keep)
    ensures x in r <==> x in s && keep(x)
  {
    var at: seq<nat> :| SelectedAt(r, s, keep, at);
    if x in r {
      var i :| 0 <= i < |r| && r[i] == x;
      assert at[i] in at && s[at[i]] == x;
    }
    if x in s && keep(x) {
      var k :| 0 <= k < |s| && s[k] == x;
      assert k in at;
      var i :| 0 <= i < |at| && at[i] == k;
      assert r[i] == x;
    }
  }

  // --- counting positions ---

  /** The positions below `n` with the property. */
  ghost function Indices(n: nat, p: nat -> bool): set<nat> {
    set i: nat | i < n && p(i)
  }

  lemma {:induction false} OneIndexMore(n: nat, p: nat -> bool)
    ensures |Indices(n + 1, p)| == |Indices(n, p)| + (if p(n) then 1 else 0)
  {
    if p(n) {
      assert Indices(n + 1, p) == Indices(n, p) + {n};
    } else {
      assert Indices(n + 1, p) == Indices(n, p);
    }
  }
}
