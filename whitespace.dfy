/** The `trim()` test that guards a translation. ECMAScript's
    String.prototype.trim removes leading and trailing WhiteSpace and
    LineTerminator code points; `!s.trim()` holds exactly when nothing is left. */
module Whitespace {

  /** ECMAScript WhiteSpace (TAB, VT, FF, ZWNBSP and every Zs code point)
      together with LineTerminator (LF, CR, LS, PS). */
  predicate IsWhitespace(c: char) {
    c == '\t' || c == '\n' || c == '\U{000B}' || c == '\U{000C}' || c == '\r'
    || c == ' ' || c == '\U{00A0}' || c == '\U{1680}'
    || ('\U{2000}' <= c <= '\U{200A}')
    || c == '\U{2028}' || c == '\U{2029}' || c == '\U{202F}' || c == '\U{205F}'
    || c == '\U{3000}' || c == '\U{FEFF}'
  }

  /** Every character of `s` is white space (vacuously true of ""). */
  ghost predicate AllWhitespace(s: string) {
    forall i :: 0 <= i < |s| ==> IsWhitespace(s[i])
  }

  /** `s` with its leading white space removed: the longest suffix of `s`
      that does not start with white space. */
  function TrimStart(s: string): (r: string)
    ensures |r| <= |s| && r == s[|s| - |r|..]
    ensures r == [] || !IsWhitespace(r[0])
    ensures forall i :: 0 <= i < |s| - |r| ==> IsWhitespace(s[i])
  {
    if |s| > 0 && IsWhitespace(s[0]) then TrimStart(s[1..]) else s
  }

  /** `s` with its trailing white space removed: the longest prefix of `s`
      that does not end with white space. */
  function TrimEnd(s: string): (r: string)
    ensures |r| <= |s| && r == s[..|r|]
    ensures r == [] || !IsWhitespace(r[|r| - 1])
    ensures forall i :: |r| <= i < |s| ==> IsWhitespace(s[i])
  {
    if |s| > 0 && IsWhitespace(s[|s| - 1]) then TrimEnd(s[..|s| - 1]) else s
  }

  /** `s.trim()`. */
  function Trim(s: string): (r: string) {
    TrimEnd(TrimStart(s))
  }

  /** `!s.trim()`: the text is empty or white space only. */
  predicate IsBlank(s: string) {
    Trim(s) == []
  }

  /** Every character of `s` from `lo` up to `hi` is white space. */
  ghost predicate WhitespaceBetween(s: string, lo: int, hi: int)
    requires 0 <= lo <= hi <= |s|
  {
    forall i :: lo <= i < hi ==> IsWhitespace(s[i])
  }

  /** `trim()` keeps exactly `s[lo..hi]` and cuts off only white space. */
  ghost predicate TrimsTo(s: string, lo: int, hi: int) {
    && 0 <= lo <= hi <= |s| && Trim(s) == s[lo..hi]
    && WhitespaceBetween(s, 0, lo) && WhitespaceBetween(s, hi, |s|)
  }

  /** What `trim()` returns is a contiguous piece of its input, and everything
      cut off on both sides is white space. */
  lemma TrimShape(s: string)
    ensures exists lo, hi :: TrimsTo(s, lo, hi)
  {
    var t := TrimStart(s);
    var lo := |s| - |t|;
    var r := TrimEnd(t);
    var hi := lo + |r|;
    assert Trim(s) == s[lo..hi] by {
      assert t == s[lo..] && r == t[..|r|];
    }
    assert WhitespaceBetween(s, 0, lo);
    assert WhitespaceBetween(s, hi, |s|) by {
      forall i | hi <= i < |s| ensures IsWhitespace(s[i]) {
        assert s[i] == t[i - lo];
      }
    }
    assert TrimsTo(s, lo, hi);
  }

  /** What `trim()` returns neither starts nor ends with white space. */
  lemma TrimEnds(s: string)
    ensures Trim(s) == [] || (!IsWhitespace(Trim(s)[0]) && !IsWhitespace(Trim(s)[|Trim(s)| - 1]))
  {
    var t := TrimStart(s);
    var r := TrimEnd(t);
    if r != [] {
      assert r[0] == t[0];
    }
  }

  /** The guard `!s.trim()` holds exactly when `s` holds nothing but white space. */
  lemma BlankIffAllWhitespace(s: string)
    ensures IsBlank(s) <==> AllWhitespace(s)
  {
    var t := TrimStart(s);
    var lo := |s| - |t|;
    if IsBlank(s) {
      assert TrimEnd(t) == [];
      forall i | 0 <= i < |s| ensures IsWhitespace(s[i]) {
        if i < lo {
          assert s[..lo][i] == s[i];
        } else {
          assert t[i - lo] == s[i];
        }
      }
    }
  }

  /** Trimming a trimmed text changes nothing. */
  lemma TrimIdempotent(s: string)
    ensures Trim(Trim(s)) == Trim(s)
  {
    var r := Trim(s);
    TrimEnds(s);
    if r != [] {
      assert TrimStart(r) == r;
      assert TrimEnd(r) == r;
    }
  }

  /** Every trimmed code point lies in the Basic Multilingual Plane, so one
      UTF-16 code unit and one Dafny character agree on it; no ASCII letter or
      digit is among them. */
  lemma WhitespaceInBmp(c: char)
    ensures IsWhitespace(c) ==> c as int <= 0xFFFF
    ensures ('a' <= c <= 'z' || 'A' <= c <= 'Z' || '0' <= c <= '9') ==> !IsWhitespace(c)
  {
  }

  /** A text of spaces is rejected by the guard. */
  lemma SpacesAreBlank()
    ensures IsBlank("") && IsBlank("   ")
  {
    var spaces := "   ";
    assert forall i :: 0 <= i < |spaces| ==> spaces[i] == ' ';
    BlankIffAllWhitespace(spaces);
  }

  /** A text with a letter in it is not. */
  lemma LetterIsNotBlank(s: string, i: int)
    requires 0 <= i < |s| && !IsWhitespace(s[i])
    ensures !IsBlank(s)
  {
    BlankIffAllWhitespace(s);
  }
}
