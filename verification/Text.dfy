/** String searching and number printing as the Rust and Python standard libraries define them. */
module Text {
  import opened Wrappers

  /** `sub` occurs in `s` at position `i`; the empty string occurs everywhere up to the end. */
  predicate OccursAt(s: string, sub: string, i: nat) {
    i + |sub| <= |s| && s[i..i + |sub|] == sub
  }

  /** Python's `s.find(sub, from)`: the least occurrence at or after `from`. */
  function FindFrom(s: string, sub: string, from: nat): (r: Option<nat>)
    ensures r.Some? ==> from <= r.value && OccursAt(s, sub, r.value)
    ensures r.Some? ==> forall i :: from <= i < r.value ==> !OccursAt(s, sub, i)
    ensures r.None? ==> forall i :: from <= i ==> !OccursAt(s, sub, i)
    decreases |s| - from
  {
    if from > |s| then None
    else if OccursAt(s, sub, from) then Some(from)
    else FindFrom(s, sub, from + 1)
  }

  predicate Contains(s: string, sub: string)
    ensures Contains(s, sub) <==> exists i: nat :: OccursAt(s, sub, i)
  {
    FindFrom(s, sub, 0).Some?
  }

  function Digit(d: nat): char
    requires d < 10
  {
    (48 + d) as char
  }

  /** Decimal printing of a natural number, without leading zeros. */
  function Decimal(n: nat): (s: string)
    ensures |s| >= 1
    ensures |s| == 1 <==> n < 10
  {
    if n < 10 then [Digit(n)] else Decimal(n / 10) + [Digit(n % 10)]
  }

  lemma {:induction false} DecimalInjective(m: nat, n: nat)
    requires Decimal(m) == Decimal(n)
    ensures m == n
  {
    var s := Decimal(m);
    if m >= 10 && n >= 10 {
      assert s[..|s| - 1] == Decimal(m / 10);
      assert s[..|s| - 1] == Decimal(n / 10);
      DecimalInjective(m / 10, n / 10);
      assert s[|s| - 1] == Digit(m % 10) == Digit(n % 10);
    } else {
      assert s[0] == Digit(m) == Digit(n);
    }
  }

  /** The number that a text of decimal digits denotes. */
  function ReadDecimal(s: string): Option<nat> {
    if s == "" then None
    else
      var last := s[|s| - 1];
      if !('0' <= last <= '9') then None
      else if |s| == 1 then Some(last as nat - '0' as nat)
      else
        match ReadDecimal(s[..|s| - 1])
        case None => None
        case Some(n) => Some(10 * n + (last as nat - '0' as nat))
  }

  lemma {:induction false} DecimalReadsBack(n: nat)
    ensures ReadDecimal(Decimal(n)) == Some(n) && (n > 0 ==> Decimal(n)[0] != '0')
  {
    if n >= 10 {
      var s := Decimal(n);
      DecimalReadsBack(n / 10);
      assert s[..|s| - 1] == Decimal(n / 10);
    }
  }

  /** The characters that Python's argument-less `str.strip` removes. */
  predicate IsSpace(c: char) {
    var u := c as int;
    9 <= u <= 13 || 28 <= u <= 32 || u == 0x85 || u == 0xA0 || u == 0x1680 || 0x2000 <= u <= 0x200A
    || u == 0x2028 || u == 0x2029 || u == 0x202F || u == 0x205F || u == 0x3000
  }

  /** They are the white space of Unicode and the four separators below the blank. */
  lemma {:induction false} SpacesListed(c: char)
    ensures IsSpace(c) <==>
              c as int in {0x9, 0xA, 0xB, 0xC, 0xD, 0x1C, 0x1D, 0x1E, 0x1F, 0x20, 0x85, 0xA0, 0x1680, 0x2000, 0x2001,
                           0x2002, 0x2003, 0x2004, 0x2005, 0x2006, 0x2007, 0x2008, 0x2009, 0x200A, 0x2028, 0x2029,
                           0x202F, 0x205F, 0x3000}
  {
  }

  predicate Blank(s: string) {
    forall i :: 0 <= i < |s| ==> IsSpace(s[i])
  }

  function TrimStart(s: string): (r: string)
    ensures |r| <= |s| && r == s[|s| - |r|..] && Blank(s[..|s| - |r|])
    ensures r != "" ==> !IsSpace(r[0])
  {
    if s == "" || !IsSpace(s[0]) then s
    else
      var r := TrimStart(s[1..]);
      assert s[..|s| - |r|] == [s[0]] + s[1..][..|s| - 1 - |r|];
      r
  }

  function TrimEnd(s: string): (r: string)
    ensures r <= s && Blank(s[|r|..])
    ensures r != "" ==> !IsSpace(r[|r| - 1])
  {
    if s == "" || !IsSpace(s[|s| - 1]) then s
    else
      var r := TrimEnd(s[..|s| - 1]);
      assert s[|r|..] == s[..|s| - 1][|r|..] + [s[|s| - 1]];
      r
  }

  /** `s.strip()`. */
  function Strip(s: string): string {
    TrimEnd(TrimStart(s))
  }

  lemma {:induction false} StripStands(s: string)
    ensures var i := |s| - |TrimStart(s)|;
            OccursAt(s, Strip(s), i) && Blank(s[..i]) && Blank(s[i + |Strip(s)|..])
  {
    var t, r := TrimStart(s), Strip(s);
    var i := |s| - |t|;
    assert s[i..i + |r|] == t[..|r|] == r;
    assert s[i + |r|..] == t[|r|..];
  }

  lemma {:induction false} StripOfBlank(s: string)
    ensures Strip(s) == "" <==> Blank(s)
  {
    var t, r := TrimStart(s), Strip(s);
    if r == "" {
      assert t[|r|..] == t;
      assert s[..|s|] == s;
    } else {
      assert r[0] == t[0] == s[|s| - |t|];
    }
  }

  /** Stripping cuts blanks off both ends and leaves nothing exactly when the text is blank. */
  lemma {:induction false} StripKeepsInk(s: string)
    ensures Strip(s) == "" <==> Blank(s)
    ensures exists i: nat :: OccursAt(s, Strip(s), i) && Blank(s[..i]) && Blank(s[i + |Strip(s)|..])
    ensures Strip(s) != "" ==> !IsSpace(Strip(s)[0]) && !IsSpace(Strip(s)[|Strip(s)| - 1])
  {
    StripStands(s);
    StripOfBlank(s);
    assert Strip(s) != "" ==> Strip(s)[0] == TrimStart(s)[0];
  }
}
