/**
  String trimming as JavaScript's `String.prototype.trim` does it: leading and
  trailing white space and line terminators are removed, nothing else.
 */
module Text {

  /** The code points ECMAScript counts as WhiteSpace or LineTerminator. */
  predicate IsWhitespace(c: char)
  {
    c == '\t' || c == '\n' || c == '\U{000B}' || c == '\U{000C}' || c == '\r' ||
    c == ' ' || c == '\U{00A0}' || c == '\U{1680}' ||
    ('\U{2000}' <= c <= '\U{200A}') ||
    c == '\U{2028}' || c == '\U{2029}' || c == '\U{202F}' || c == '\U{205F}' ||
    c == '\U{3000}' || c == '\U{FEFF}'
  }

  /** A string made of white space only (the empty string included). */
  predicate IsBlank(s: string)
  {
    forall i :: 0 <= i < |s| ==> IsWhitespace(s[i])
  }

  /** Drops the leading white space: what is removed is blank and what remains starts with a non-blank. */
  function TrimStart(s: string): (r: string)
    ensures |r| <= |s| && r == s[|s| - |r|..]
    ensures forall k :: 0 <= k < |s| - |r| ==> IsWhitespace(s[k])
    ensures r == [] || !IsWhitespace(r[0])
  {
    if |s| > 0 && IsWhitespace(s[0]) then TrimStart(s[1..]) else s
  }

  /** Drops the trailing white space: what is removed is blank and what remains ends with a non-blank. */
  function TrimEnd(s: string): (r: string)
    ensures |r| <= |s| && r == s[..|r|]
    ensures forall k :: |r| <= k < |s| ==> IsWhitespace(s[k])
    ensures r == [] || !IsWhitespace(r[|r| - 1])
  {
    if |s| > 0 && IsWhitespace(s[|s| - 1]) then TrimEnd(s[..|s| - 1]) else s
  }

  /**
    `s.trim()`: the middle part of `s` left once the white space at both ends
    is cut off; it is empty exactly when `s` is blank.
   */
  function Trim(s: string): (r: string)
    ensures r == [] <==> IsBlank(s)
    ensures r != [] ==> !IsWhitespace(r[0])
  {
    var t := TrimStart(s);
    var r := TrimEnd(t);
    TrimParts(s, t, r);
    r
  }

  /** The two halves of `Trim` together cut off only white space, and cut everything off only from a blank string. */
  lemma TrimParts(s: string, t: string, r: string)
    requires t == TrimStart(s) && r == TrimEnd(t)
    ensures PaddedAt(s, |s| - |t|, r)
    ensures r == [] <==> IsBlank(s)
    ensures r != [] ==> !IsWhitespace(r[0]) && !IsWhitespace(r[|r| - 1])
  {
    CutEnds(s, |s| - |t|, t, r);
  }

  /**
    Cutting a white-space prefix of length `lo` from `s` and then a white-space
    suffix from what is left leaves `r` padded at `lo`.
   */
  lemma CutEnds(s: string, lo: nat, t: string, r: string)
    requires lo <= |s| && t == s[lo..] && forall k :: 0 <= k < lo ==> IsWhitespace(s[k])
    requires t == [] || !IsWhitespace(t[0])
    requires |r| <= |t| && r == t[..|r|] && forall k :: |r| <= k < |t| ==> IsWhitespace(t[k])
    requires r == [] || !IsWhitespace(r[|r| - 1])
    ensures PaddedAt(s, lo, r)
    ensures r == [] <==> IsBlank(s)
    ensures r != [] ==> !IsWhitespace(r[0]) && !IsWhitespace(r[|r| - 1])
  {
    assert s[lo..lo + |r|] == r;
    forall k | lo + |r| <= k < |s| ensures IsWhitespace(s[k]) {
      assert s[k] == t[k - lo];
    }
    if r != [] {
      assert r[0] == t[0] && r[0] == s[lo];
      NotBlankAt(s, lo);
    }
  }

  /** `s` is `r` placed at offset `lo` with only white space before and after it. */
  predicate PaddedAt(s: string, lo: int, r: string)
  {
    0 <= lo <= lo + |r| <= |s| && s[lo..lo + |r|] == r &&
    (forall k :: 0 <= k < lo ==> IsWhitespace(s[k])) &&
    (forall k :: lo + |r| <= k < |s| ==> IsWhitespace(s[k]))
  }

  /** `Trim` cuts only white space, from both ends: `s` is its result padded with white space. */
  lemma TrimIsPadded(s: string)
    ensures exists lo :: PaddedAt(s, lo, Trim(s))
  {
    TrimParts(s, TrimStart(s), Trim(s));
  }

  /** Nothing `Trim` returns starts or ends with white space. */
  lemma TrimEnds(s: string)
    ensures var r := Trim(s); r != [] ==> !IsWhitespace(r[0]) && !IsWhitespace(r[|r| - 1])
  {
    TrimParts(s, TrimStart(s), Trim(s));
  }

  /** Trimming twice is trimming once. */
  lemma TrimIdempotent(s: string)
    ensures Trim(Trim(s)) == Trim(s)
  {
    var r := Trim(s);
    var t := TrimStart(r);
    if r != [] {
      assert t == r;
      assert TrimEnd(t) == r;
    } else {
      assert IsBlank(r);
    }
  }

  /** A string that starts and ends with a non-white character is its own trim. */
  lemma TrimFixed(s: string)
    requires s != [] && !IsWhitespace(s[0]) && !IsWhitespace(s[|s| - 1])
    ensures Trim(s) == s
  {
    assert TrimStart(s) == s;
    assert TrimEnd(s) == s;
  }

  /** No white space at either end: what `trim` leaves in place. */
  predicate IsTrimmed(s: string)
  {
    s == [] || (!IsWhitespace(s[0]) && !IsWhitespace(s[|s| - 1]))
  }

  /** A string is trimmed exactly when trimming it changes nothing. */
  lemma TrimmedIffFixed(s: string)
    ensures IsTrimmed(s) <==> Trim(s) == s
  {
    if s == [] {
      assert IsBlank(s);
    } else if IsTrimmed(s) {
      TrimFixed(s);
    } else if Trim(s) == s {
      TrimEnds(s);
    }
  }

  /** A string given in two pieces, as long literals are, whose outer ends are not white space. */
  lemma TrimmedConcat(a: string, b: string)
    requires a != [] && b != [] && !IsWhitespace(a[0]) && !IsWhitespace(b[|b| - 1])
    ensures IsTrimmed(a + b) && !IsBlank(a + b)
  {
    var s := a + b;
    assert s[0] == a[0] && s[|s| - 1] == b[|b| - 1];
    NotBlankAt(s, 0);
  }

  /** One non-white character makes a string non-blank. */
  lemma NotBlankAt(s: string, i: nat)
    requires i < |s| && !IsWhitespace(s[i])
    ensures !IsBlank(s)
  {
  }

  /** A trimmed string that is not empty is not blank either. */
  lemma TrimmedNotBlank(s: string)
    requires Trim(s) != []
    ensures !IsBlank(Trim(s))
  {
    assert !IsWhitespace(Trim(s)[0]);
  }
}
