/** The two Python string operations the analyzer relies on, over `seq<char>`:
    `str.strip()` with no argument (remove leading and trailing whitespace, where
    whitespace is what `str.isspace` accepts) and `str.lower()`. */
module PyText {

  /** The characters Python's `str.isspace` accepts. */
  predicate IsSpace(c: char)
  {
    c == ' ' || ('\t' <= c <= '\r') || ('\U{1C}' <= c <= '\U{1F}') ||
    c == '\U{85}' || c == '\U{A0}' || c == '\U{1680}' ||
    ('\U{2000}' <= c <= '\U{200A}') || c == '\U{2028}' || c == '\U{2029}' ||
    c == '\U{202F}' || c == '\U{205F}' || c == '\U{3000}'
  }

  /** Every character of `s` is whitespace (vacuously true of ""). */
  predicate AllSpace(s: string)
  {
    forall i :: 0 <= i < |s| ==> IsSpace(s[i])
  }

  /** `s` neither starts nor ends with whitespace. */
  predicate Trimmed(s: string)
  {
    s == [] || (!IsSpace(s[0]) && !IsSpace(s[|s| - 1]))
  }

  /** `str.lstrip()`: what remains is a suffix of `s`, everything dropped was
      whitespace, and the remainder does not start with whitespace. */
  function StripLeft(s: string): (r: string)
    ensures |r| <= |s| && r == s[|s| - |r|..]
    ensures AllSpace(s[..|s| - |r|])
    ensures r == [] || !IsSpace(r[0])
  {
    if s != [] && IsSpace(s[0]) then
      var r := StripLeft(s[1..]);
      assert forall i :: 1 <= i < |s| - |r| ==> s[i] == s[1..][..|s| - 1 - |r|][i - 1];
      r
    else s
  }

  /** `str.rstrip()`: what remains is a prefix of `s`, everything dropped was
      whitespace, and the remainder does not end with whitespace. */
  function StripRight(s: string): (r: string)
    ensures |r| <= |s| && r == s[..|r|]
    ensures AllSpace(s[|r|..])
    ensures r == [] || !IsSpace(r[|r| - 1])
  {
    if s != [] && IsSpace(s[|s| - 1]) then
      var r := StripRight(s[..|s| - 1]);
      assert forall i :: |r| <= i < |s| - 1 ==> s[i] == s[..|s| - 1][|r|..][i - |r|];
      r
    else s
  }

  /** `str.strip()`. */
  function Strip(s: string): (r: string)
    ensures Trimmed(r)
    ensures |r| <= |s|
  {
    var l := StripLeft(s);
    var r := StripRight(l);
    assert r != [] ==> r[0] == l[0];
    r
  }

  /** The stripped string is the middle of `s` between two runs of whitespace. */
  lemma StripIsInfix(s: string)
    ensures exists i, j :: 0 <= i <= j <= |s| && Strip(s) == s[i..j] &&
                           AllSpace(s[..i]) && AllSpace(s[j..])
  {
    var l := StripLeft(s);
    var i := |s| - |l|;
    var j := i + |StripRight(l)|;
    assert s[i..j] == l[..|StripRight(l)|];
    assert s[j..] == l[|StripRight(l)|..];
  }

  lemma StripLeftOfAllSpace(s: string)
    ensures StripLeft(s) == [] <==> AllSpace(s)
  {
    var r := StripLeft(s);
    if r != [] {
      assert r[0] == s[|s| - |r|];
    }
    assert s[..|s|] == s;
  }

  /** Stripping yields "" exactly when the input is whitespace only. */
  lemma StripEmptyIff(s: string)
    ensures Strip(s) == [] <==> AllSpace(s)
  {
    StripLeftOfAllSpace(s);
    var l := StripLeft(s);
    if l != [] {
      assert StripRight(l) != [] by { assert !IsSpace(l[0]); }
    }
  }

  lemma StripLeftOfTrimmed(s: string)
    requires s == [] || !IsSpace(s[0])
    ensures StripLeft(s) == s
  {
  }

  lemma StripRightOfTrimmed(s: string)
    requires s == [] || !IsSpace(s[|s| - 1])
    ensures StripRight(s) == s
  {
  }

  /** Stripping twice is stripping once. */
  lemma StripIdempotent(s: string)
    ensures Strip(Strip(s)) == Strip(s)
  {
    var r := Strip(s);
    StripLeftOfTrimmed(r);
    StripRightOfTrimmed(r);
  }

  /** Trailing text never shortens a prefix that ends in a non-space. */
  lemma {:induction false} StripRightKeepsPrefix(p: string, q: string)
    requires p != [] && !IsSpace(p[|p| - 1])
    ensures p <= StripRight(p + q)
  {
    var s := p + q;
    if q != [] && IsSpace(s[|s| - 1]) {
      assert s[..|s| - 1] == p + q[..|q| - 1];
      StripRightKeepsPrefix(p, q[..|q| - 1]);
    } else if q == [] {
      assert s == p;
      StripRightOfTrimmed(p);
    } else {
      StripRightOfTrimmed(s);
    }
  }

  /** A string that starts and ends with non-space characters survives, as a
      prefix, the stripping of anything it is followed by. */
  lemma StripKeepsFramedPrefix(p: string, q: string)
    requires p != [] && Trimmed(p)
    ensures p <= Strip(p + q)
    ensures |Strip(p + q)| >= |p|
  {
    assert (p + q)[0] == p[0];
    StripLeftOfTrimmed(p + q);
    StripRightKeepsPrefix(p, q);
  }

  /** `str.lower()` on one character: ASCII capitals become small letters;
      every other character is left as it is. */
  function LowerChar(c: char): (r: char)
    ensures 'A' <= c <= 'Z' ==> 'a' <= r <= 'z' && r as int - c as int == 32
    ensures !('A' <= c <= 'Z') ==> r == c
  {
    if 'A' <= c <= 'Z' then (c as int - 'A' as int + 'a' as int) as char else c
  }

  /** `str.lower()`: character by character, keeping the length. */
  function Lower(s: string): (r: string)
    ensures |r| == |s|
    ensures forall i :: 0 <= i < |s| ==> r[i] == LowerChar(s[i])
  {
    if s == [] then [] else [LowerChar(s[0])] + Lower(s[1..])
  }

  /** Lower-casing is idempotent, so a lookup keyed on `Lower(s)` gives the same
      answer for `s` and for `Lower(s)`. */
  lemma LowerIdempotent(s: string)
    ensures Lower(Lower(s)) == Lower(s)
  {
  }

  /** Two strings equal up to ASCII case have the same lower-case form. */
  predicate EqualIgnoringCase(s: string, t: string)
  {
    |s| == |t| && forall i :: 0 <= i < |s| ==> LowerChar(s[i]) == LowerChar(t[i])
  }

  lemma LowerEqualIff(s: string, t: string)
    ensures Lower(s) == Lower(t) <==> EqualIgnoringCase(s, t)
  {
    if EqualIgnoringCase(s, t) {
      assert forall i :: 0 <= i < |s| ==> Lower(s)[i] == Lower(t)[i];
    }
  }
}
