/** Finding the body of `async fn main()` by counting braces, against the grammar of balanced text. */
module BraceScan {
  import opened Wrappers
  import opened Text

  // --- balanced text ---

  /** A derivation of balanced text: nothing, a character that is no brace, or a braced block, and then more. */
  datatype Balanced = Nothing | Plain(c: char, rest: Balanced) | Block(inner: Balanced, rest: Balanced) {
    predicate Valid() {
      match this
      case Nothing => true
      case Plain(c, rest) => c != '{' && c != '}' && rest.Valid()
      case Block(inner, rest) => inner.Valid() && rest.Valid()
    }

    function Yield(): string {
      match this
      case Nothing => ""
      case Plain(c, rest) => [c] + rest.Yield()
      case Block(inner, rest) => "{" + inner.Yield() + "}" + rest.Yield()
    }
  }

  ghost predicate IsBalanced(s: string) {
    exists t: Balanced :: t.Valid() && t.Yield() == s
  }

  function Weight(c: char): int {
    if c == '{' then 1 else if c == '}' then -1 else 0
  }

  /** Where the depth counter, having read `depth` unmatched opening braces, first meets the brace that closes the
      outermost of them. */
  function Closing(s: string, from: nat, depth: int): (r: Option<nat>)
    requires from <= |s|
    ensures r.Some? ==> from <= r.value < |s| && s[r.value] == '}'
    decreases |s| - from
  {
    if from == |s| then None
    else
      var depth' := depth + Weight(s[from]);
      if s[from] == '}' && depth' == 0 then Some(from) else Closing(s, from + 1, depth')
  }

  lemma {:induction false} RegroupBlock(pre: string, inner: string, rest: string, post: string)
    ensures pre + ("{" + inner + "}" + rest) == pre + "{" + inner + "}" + rest
    ensures pre + ("{" + inner + "}" + rest) + post == pre + "{" + inner + ("}" + rest + post)
    ensures pre + ("{" + inner + "}" + rest) + post == pre + "{" + inner + "}" + rest + post
  {
  }

  /** Reading balanced text leaves the counter where it was and never lets it close. */
  lemma {:induction false} BalancedIsSkipped(t: Balanced, pre: string, post: string, depth: nat)
    requires t.Valid() && depth >= 1
    ensures Closing(pre + t.Yield() + post, |pre|, depth)
            == Closing(pre + t.Yield() + post, |pre + t.Yield()|, depth)
    decreases t
  {
    var s := pre + t.Yield() + post;
    match t
    case Nothing => assert pre + "" == pre;
    case Plain(c, rest) =>
      var pre' := pre + [c];
      assert pre + t.Yield() == pre' + rest.Yield();
      assert s == pre' + rest.Yield() + post && s[|pre|] == c;
      BalancedIsSkipped(rest, pre', post, depth);
    case Block(inner, rest) =>
      var pre1 := pre + "{";
      var post1 := "}" + rest.Yield() + post;
      var pre2 := pre1 + inner.Yield();
      var pre3 := pre2 + "}";
      RegroupBlock(pre, inner.Yield(), rest.Yield(), post);
      assert s[|pre|] == '{' && s[|pre2|] == '}';
      BalancedIsSkipped(inner, pre1, post1, depth + 1);
      BalancedIsSkipped(rest, pre3, post, depth);
  }

  /** So behind an opening brace and a balanced body, the closing brace is the one found. */
  lemma {:induction false} ClosingOfBody(t: Balanced, pre: string, tail: string)
    requires t.Valid()
    ensures Closing(pre + t.Yield() + "}" + tail, |pre|, 1) == Some(|pre + t.Yield()|)
  {
    var post := "}" + tail;
    BalancedIsSkipped(t, pre, post, 1);
    assert pre + t.Yield() + "}" + tail == pre + t.Yield() + post;
    assert (pre + t.Yield() + post)[|pre + t.Yield()|] == '}';
  }

  /** Conversely, between the starting point and the closing brace found there are `depth` balanced texts, each but
      the last followed by a closing brace. */
  lemma {:induction false} ClosingFindsBodies(s: string, from: nat, depth: nat) returns (ts: seq<Balanced>)
    requires from <= |s| && depth >= 1 && Closing(s, from, depth).Some?
    ensures |ts| == depth && forall i :: 0 <= i < depth ==> ts[i].Valid()
    ensures s[from..Closing(s, from, depth).value] == Joined(ts)
    decreases |s| - from
  {
    var c, end := s[from], Closing(s, from, depth).value;
    if c == '}' && depth == 1 {
      ts := [Nothing];
    } else if c == '}' {
      var more := ClosingFindsBodies(s, from + 1, depth - 1);
      ts := [Nothing] + more;
      assert ts[1..] == more;
      assert s[from..end] == "}" + s[from + 1..end];
    } else if c == '{' {
      var more := ClosingFindsBodies(s, from + 1, depth + 1);
      ts := [Block(more[0], more[1])] + more[2..];
      OpenBlock(more);
      assert s[from..end] == "{" + s[from + 1..end];
    } else {
      var more := ClosingFindsBodies(s, from + 1, depth);
      ts := [Plain(c, more[0])] + more[1..];
      PlainFirst(c, more);
      assert s[from..end] == [c] + s[from + 1..end];
    }
  }

  /** Balanced texts with closing braces between them. */
  function Joined(ts: seq<Balanced>): string {
    if ts == [] then ""
    else if |ts| == 1 then ts[0].Yield()
    else ts[0].Yield() + ("}" + Joined(ts[1..]))
  }

  lemma {:induction false} PlainFirst(c: char, ts: seq<Balanced>)
    requires ts != []
    ensures Joined([Plain(c, ts[0])] + ts[1..]) == [c] + Joined(ts)
  {
    var us := [Plain(c, ts[0])] + ts[1..];
    assert us[1..] == ts[1..];
  }

  lemma {:induction false} OpenBlock(ts: seq<Balanced>)
    requires |ts| >= 2
    ensures Joined([Block(ts[0], ts[1])] + ts[2..]) == "{" + Joined(ts)
  {
    var us := [Block(ts[0], ts[1])] + ts[2..];
    assert us[1..] == ts[2..] && ts[1..][1..] == ts[2..];
    var a, b := ts[0].Yield(), ts[1].Yield();
    if |ts| == 2 {
      assert ts[1..] == [ts[1]];
      assert "{" + a + "}" + b == "{" + (a + ("}" + b));
    } else {
      var r := Joined(ts[2..]);
      assert ("{" + a + "}" + b) + ("}" + r) == "{" + (a + ("}" + (b + ("}" + r))));
    }
  }

  // --- the scanner ---

  datatype MainBody = Body(text: string) | MissingMain | NoBody | Unbalanced

  /** The text whose body is looked for. */
  function Marker(): string {
    "async fn main()"
  }

  /** Position just behind the first opening brace at or after the first marker, if there are both. */
  function BodyStart(source: string, marker: string): Option<nat> {
    match FindFrom(source, marker, 0)
    case None => None
    case Some(start) =>
      match FindFrom(source, "{", start)
      case None => None
      case Some(open) => Some(open + 1)
  }

  /** The text from `from` on starts with this body and a closing brace. */
  predicate HasBodyAt(source: string, from: nat, body: string) {
    from + |body| < |source| && source[from..from + |body|] == body && source[from + |body|] == '}'
  }

  /** There is at most one balanced body at a position, and the depth counter finds it if there is one. */
  lemma {:induction false} BodyIsFound(source: string, from: nat, body: string)
    requires from <= |source| && IsBalanced(body) && HasBodyAt(source, from, body)
    ensures Closing(source, from, 1) == Some(from + |body|)
  {
    var t: Balanced :| t.Valid() && t.Yield() == body;
    var pre, tail := source[..from], source[from + |body| + 1..];
    assert source == pre + body + "}" + tail;
    ClosingOfBody(t, pre, tail);
  }

  lemma {:induction false} FoundIsBody(source: string, from: nat)
    requires from <= |source| && Closing(source, from, 1).Some?
    ensures var end := Closing(source, from, 1).value;
            IsBalanced(source[from..end]) && HasBodyAt(source, from, source[from..end])
  {
    var ts := ClosingFindsBodies(source, from, 1);
    assert ts[0].Valid() && ts[0].Yield() == source[from..Closing(source, from, 1).value];
  }

  /** The balanced text between the first brace after the first marker and its closing brace, or the failure that is
      reported exactly when that part of the text does not exist. */
  ghost predicate IsExtraction(source: string, r: MainBody) {
    var start := BodyStart(source, Marker());
    match r
    case MissingMain => FindFrom(source, Marker(), 0).None?
    case NoBody => FindFrom(source, Marker(), 0).Some? && start.None?
    case Unbalanced => start.Some? && forall body :: IsBalanced(body) ==> !HasBodyAt(source, start.value, body)
    case Body(text) => start.Some? && IsBalanced(text) && HasBodyAt(source, start.value, text)
  }

  lemma {:induction false} FoundIsExtraction(source: string, from: nat, end: nat)
    requires BodyStart(source, Marker()) == Some(from) && from <= |source| && Closing(source, from, 1) == Some(end)
    ensures IsExtraction(source, Body(source[from..end]))
  {
    FoundIsBody(source, from);
  }

  lemma {:induction false} NoneFoundIsExtraction(source: string, from: nat)
    requires BodyStart(source, Marker()) == Some(from) && from <= |source| && Closing(source, from, 1).None?
    ensures IsExtraction(source, Unbalanced)
  {
    forall body | IsBalanced(body) ensures !HasBodyAt(source, from, body) {
      if HasBodyAt(source, from, body) {
        BodyIsFound(source, from, body);
      }
    }
  }

  /** The scan from an opening brace to the brace that closes it. */
  method ScanBlock(source: string, openBrace: nat) returns (end: Option<nat>)
    requires openBrace < |source| && source[openBrace] == '{'
    ensures end == Closing(source, openBrace + 1, 1)
  {
    var depth := 0;
    for index := openBrace to |source|
      invariant if index == openBrace then depth == 0 else depth >= 1
      invariant index > openBrace ==> Closing(source, openBrace + 1, 1) == Closing(source, index, depth)
    {
      var c := source[index];
      if c == '{' {
        depth := depth + 1;
      } else if c == '}' {
        depth := depth - 1;
        if depth == 0 {
          return Some(index);
        }
      }
    }
    return None;
  }

  /** The body of main. */
  method ExtractAsyncMainBody(source: string) returns (r: MainBody)
    ensures IsExtraction(source, r)
  {
    var start := FindFrom(source, Marker(), 0);
    if start.None? {
      return MissingMain;
    }
    var found := FindFrom(source, "{", start.value);
    if found.None? {
      return NoBody;
    }
    var openBrace := found.value;
    assert source[openBrace] == source[openBrace..openBrace + 1][0] == '{';
    var end := ScanBlock(source, openBrace);
    match end
    case Some(index) =>
      FoundIsExtraction(source, openBrace + 1, index);
      return Body(source[openBrace + 1..index]);
    case None =>
      NoneFoundIsExtraction(source, openBrace + 1);
      return Unbalanced;
  }

  /** At most one balanced body in front of a closing brace starts at a position. */
  lemma {:induction false} BodyIsUnique(source: string, from: nat, a: string, b: string)
    requires from <= |source| && IsBalanced(a) && IsBalanced(b) && HasBodyAt(source, from, a)
             && HasBodyAt(source, from, b)
    ensures a == b
  {
    BodyIsFound(source, from, a);
    BodyIsFound(source, from, b);
    assert a == source[from..from + |a|];
    assert b == source[from..from + |b|];
  }

  /** Where the first marker is followed by text without an opening brace, then by a body in braces, that body is
      the one the extraction looks at, whatever comes before and after. */
  lemma {:induction false} BodyIsLocated(pre: string, marker: string, between: string, body: string, tail: string)
    requires '{' !in marker && '{' !in between
    requires FindFrom(pre + marker + between + "{" + body + "}" + tail, marker, 0) == Some(|pre|)
    ensures var source := pre + marker + between + "{" + body + "}" + tail;
            var open := |pre + marker + between|;
            BodyStart(source, marker) == Some(open + 1) && HasBodyAt(source, open + 1, body)
  {
    var source, open := pre + marker + between + "{" + body + "}" + tail, |pre + marker + between|;
    assert source[open..open + 1] == "{";
    assert OccursAt(source, "{", open);
    forall i | |pre| <= i < open ensures !OccursAt(source, "{", i) {
      assert source[i] == (marker + between)[i - |pre|];
    }
  }

  /** There is one extraction from every source, whatever the source is. */
  lemma {:induction false} ExtractionIsUnique(source: string, r: MainBody, r': MainBody)
    requires IsExtraction(source, r) && IsExtraction(source, r')
    ensures r == r'
  {
    if r.Body? && r'.Body? {
      BodyIsUnique(source, BodyStart(source, Marker()).value, r.text, r'.text);
    }
  }

  /** For a source whose first marker is followed by text without an opening brace and a balanced body in braces, the
      extraction yields exactly that body. */
  lemma {:induction false} BodyIsExtracted(pre: string, between: string, body: string, tail: string, r: MainBody)
    requires '{' !in between && IsBalanced(body)
    requires FindFrom(pre + "async fn main()" + between + "{" + body + "}" + tail, "async fn main()", 0) == Some(|pre|)
    requires IsExtraction(pre + "async fn main()" + between + "{" + body + "}" + tail, r)
    ensures r == Body(body)
  {
    BodyIsLocated(pre, Marker(), between, body, tail);
    ExtractionIsUnique(pre + Marker() + between + "{" + body + "}" + tail, r, Body(body));
  }
}
