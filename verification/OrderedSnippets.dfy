/** The ordered-snippet check: greedy search for snippets one after the other. */
module OrderedSnippets {
  import opened Wrappers
  import opened Text

  datatype OrderCheck = Passed | Missing(snippet: nat) | OutOfOrder

  /** The snippets occur at strictly increasing positions, all beyond `after`. */
  ghost predicate OccurInOrder(source: string, snippets: seq<string>, positions: seq<nat>, after: int) {
    && |positions| == |snippets|
    && (forall i :: 0 <= i < |snippets| ==> OccursAt(source, snippets[i], positions[i]))
    && (forall i :: 0 <= i < |positions| ==> after < positions[i])
    && (forall i, j :: 0 <= i < j < |positions| ==> positions[i] < positions[j])
  }

  ghost predicate Orderable(source: string, snippets: seq<string>) {
    exists positions :: OccurInOrder(source, snippets, positions, -1)
  }

  /** Taking the earliest match loses nothing: of any arrangement of the snippets, the greedy positions are
      nowhere later. */
  ghost predicate Earliest(source: string, snippets: seq<string>, greedy: seq<nat>) {
    && OccurInOrder(source, snippets, greedy, -1)
    && forall positions :: OccurInOrder(source, snippets, positions, -1) ==>
         forall i :: 0 <= i < |greedy| ==> greedy[i] <= positions[i]
  }

  lemma {:induction false} PrefixInOrder(source: string, snippets: seq<string>, positions: seq<nat>, n: nat)
    requires OccurInOrder(source, snippets, positions, -1) && n <= |snippets|
    ensures OccurInOrder(source, snippets[..n], positions[..n], -1)
  {
  }

  /** Where the search for the next snippet starts: one past the last match, or at the beginning. */
  function NextStart(greedy: seq<nat>): nat {
    if greedy == [] then 0 else greedy[|greedy| - 1] + 1
  }

  lemma {:induction false} LaterStart(greedy: seq<nat>, positions: seq<nat>, n: nat)
    requires |greedy| == n < |positions|
    requires forall i, j :: 0 <= i < j < |positions| ==> positions[i] < positions[j]
    requires forall i :: 0 <= i < n ==> greedy[i] <= positions[i]
    ensures NextStart(greedy) <= positions[n]
  {
    if n > 0 {
      assert positions[n - 1] < positions[n];
    }
  }

  /** Any arrangement of one snippet more has it at or behind the place where the greedy search continues. */
  lemma {:induction false} NotBefore(source: string, snippets: seq<string>, greedy: seq<nat>, positions: seq<nat>)
    requires |greedy| < |snippets|
    requires Earliest(source, snippets[..|greedy|], greedy)
    requires OccurInOrder(source, snippets[..|greedy| + 1], positions, -1)
    ensures forall i :: 0 <= i < |greedy| ==> greedy[i] <= positions[i]
    ensures NextStart(greedy) <= positions[|greedy|] && OccursAt(source, snippets[|greedy|], positions[|greedy|])
  {
    var n := |greedy|;
    var longer := snippets[..n + 1];
    PrefixInOrder(source, longer, positions, n);
    assert longer[..n] == snippets[..n];
    assert forall i :: 0 <= i < n ==> greedy[i] <= positions[..n][i];
    LaterStart(greedy, positions, n);
    assert OccursAt(source, longer[n], positions[n]);
  }

  /** Exchange argument: the earliest match behind the greedy prefix is no later than any other arrangement's. */
  lemma {:induction false} EarliestExtends(source: string, snippets: seq<string>, greedy: seq<nat>, next: nat)
    requires |greedy| < |snippets|
    requires Earliest(source, snippets[..|greedy|], greedy)
    requires FindFrom(source, snippets[|greedy|], NextStart(greedy)) == Some(next)
    ensures Earliest(source, snippets[..|greedy| + 1], greedy + [next])
  {
    var n := |greedy|;
    var longer := snippets[..n + 1];
    assert longer == snippets[..n] + [snippets[n]];
    assert OccurInOrder(source, longer, greedy + [next], -1);
    forall positions | OccurInOrder(source, longer, positions, -1)
      ensures forall i :: 0 <= i < n + 1 ==> (greedy + [next])[i] <= positions[i]
    {
      NotBefore(source, snippets, greedy, positions);
    }
  }

  lemma {:induction false} NoMatchNoOrder(source: string, snippets: seq<string>, greedy: seq<nat>)
    requires |greedy| < |snippets|
    requires Earliest(source, snippets[..|greedy|], greedy)
    requires FindFrom(source, snippets[|greedy|], NextStart(greedy)).None?
    ensures !Orderable(source, snippets[..|greedy| + 1])
  {
    var longer := snippets[..|greedy| + 1];
    forall positions ensures !OccurInOrder(source, longer, positions, -1) {
      if OccurInOrder(source, longer, positions, -1) {
        NotBefore(source, snippets, greedy, positions);
      }
    }
  }

  /** A longer list is only harder to order. */
  lemma {:induction false} OrderableIsMonotone(source: string, snippets: seq<string>, n: nat)
    requires n <= |snippets| && Orderable(source, snippets)
    ensures Orderable(source, snippets[..n])
  {
    var positions :| OccurInOrder(source, snippets, positions, -1);
    PrefixInOrder(source, snippets, positions, n);
  }

  /** The check passes exactly when the snippets can be found in order; otherwise it names the first snippet that
      cannot be, and its third outcome never happens. */
  method AssertOrdered(source: string, snippets: seq<string>) returns (r: OrderCheck)
    ensures r.Passed? <==> Orderable(source, snippets)
    ensures r.Missing? ==> r.snippet < |snippets|
                           && Orderable(source, snippets[..r.snippet]) && !Orderable(source, snippets[..r.snippet + 1])
    ensures !r.OutOfOrder?
  {
    var cursor: int := -1;
    ghost var greedy: seq<nat> := [];
    assert Earliest(source, snippets[..0], greedy);
    for i := 0 to |snippets|
      invariant |greedy| == i && cursor + 1 == NextStart(greedy)
      invariant Earliest(source, snippets[..i], greedy)
    {
      var index := FindFrom(source, snippets[i], cursor + 1);
      if index.None? {
        NoMatchNoOrder(source, snippets, greedy);
        if Orderable(source, snippets) {
          OrderableIsMonotone(source, snippets, i + 1);
        }
        return Missing(i);
      }
      if index.value <= cursor {
        return OutOfOrder;
      }
      EarliestExtends(source, snippets, greedy, index.value);
      cursor := index.value;
      greedy := greedy + [index.value];
    }
    assert snippets[..|snippets|] == snippets;
    return Passed;
  }
}
