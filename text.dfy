/** The string built-ins of JavaScript that the side panel relies on:
    `String.prototype.trim` and the `length` of a string. */
module JsText {

  /** The characters `trim` strips: ECMAScript's WhiteSpace and LineTerminator productions. */
  predicate IsWhiteSpace(c: char)
  {
    || c == '\t' || c == '\n' || c == '\U{000B}' || c == '\U{000C}' || c == '\r' || c == ' '
    || c == '\U{00A0}' || c == '\U{1680}'
    || ('\U{2000}' <= c <= '\U{200A}')
    || c == '\U{2028}' || c == '\U{2029}' || c == '\U{202F}' || c == '\U{205F}'
    || c == '\U{3000}' || c == '\U{FEFF}'
  }

  predicate AllWhiteSpace(s: string)
  {
    forall k :: 0 <= k < |s| ==> IsWhiteSpace(s[k])
  }

  /** `s` with its leading white space removed. */
  function TrimStart(s: string): (r: string)
    ensures |r| <= |s|
  {
    if s != [] && IsWhiteSpace(s[0]) then TrimStart(s[1..]) else s
  }

  /** `TrimStart` removes a prefix of white space and stops at the first other character. */
  lemma {:induction false} TrimStartCuts(s: string)
    ensures var r := TrimStart(s);
      && r == s[|s| - |r|..]
      && (forall k :: 0 <= k < |s| - |r| ==> IsWhiteSpace(s[k]))
      && (r != [] ==> !IsWhiteSpace(r[0]))
  {
    if s != [] && IsWhiteSpace(s[0]) {
      TrimStartCuts(s[1..]);
      var r := TrimStart(s);
      assert s[1..][|s| - 1 - |r|..] == s[|s| - |r|..];
      assert forall k :: 1 <= k < |s| - |r| ==> s[k] == s[1..][k - 1];
    }
  }

  /** `s` with its trailing white space removed. */
  function TrimEnd(s: string): (r: string)
    ensures |r| <= |s|
  {
    if s != [] && IsWhiteSpace(s[|s| - 1]) then TrimEnd(s[..|s| - 1]) else s
  }

  /** `TrimEnd` removes a suffix of white space and stops at the last other character. */
  lemma {:induction false} TrimEndCuts(s: string)
    ensures var r := TrimEnd(s);
      && r == s[..|r|]
      && (forall k :: |r| <= k < |s| ==> IsWhiteSpace(s[k]))
      && (r != [] ==> !IsWhiteSpace(r[|r| - 1]))
  {
    if s != [] && IsWhiteSpace(s[|s| - 1]) {
      TrimEndCuts(s[..|s| - 1]);
      var r := TrimEnd(s);
      assert s[..|s| - 1][..|r|] == s[..|r|];
      assert forall k :: |r| <= k < |s| - 1 ==> s[k] == s[..|s| - 1][k];
    }
  }

  /** `r` is `s` with white-space-only margins cut off at offset `i` and after `i + |r|`. */
  ghost predicate CutAt(s: string, i: nat, r: string)
  {
    && i + |r| <= |s|
    && (forall k :: 0 <= k < |r| ==> s[i + k] == r[k])
    && (forall k :: 0 <= k < i ==> IsWhiteSpace(s[k]))
    && (forall k :: i + |r| <= k < |s| ==> IsWhiteSpace(s[k]))
  }

  /** A candidate trim of `s`: an infix of `s` reached by cutting white space only,
      which neither begins nor ends with white space. */
  ghost predicate IsTrimOf(s: string, r: string)
  {
    && (exists i: nat :: CutAt(s, i, r))
    && (r != [] ==> !IsWhiteSpace(r[0]) && !IsWhiteSpace(r[|r| - 1]))
  }

  /** JavaScript's `s.trim()`: empty exactly when `s` is all white space. */
  function Trim(s: string): (r: string)
    ensures |r| <= |s|
    ensures r == [] <==> AllWhiteSpace(s)
  {
    var t := TrimStart(s);
    var r := TrimEnd(t);
    TrimStartCuts(s);
    TrimEndCuts(t);
    assert forall k :: |s| - |t| <= k < |s| ==> s[k] == t[k - (|s| - |t|)];
    r
  }

  /** A white-space prefix cut that stops at a non-white character, followed by a
      white-space suffix cut that stops at one, is a candidate trim of `s`. */
  lemma TwoCutsTrim(s: string, t: string, r: string)
    requires |t| <= |s| && t == s[|s| - |t|..] && forall k :: 0 <= k < |s| - |t| ==> IsWhiteSpace(s[k])
    requires t != [] ==> !IsWhiteSpace(t[0])
    requires |r| <= |t| && r == t[..|r|] && forall k :: |r| <= k < |t| ==> IsWhiteSpace(t[k])
    requires r != [] ==> !IsWhiteSpace(r[|r| - 1])
    ensures CutAt(s, |s| - |t|, r) && IsTrimOf(s, r)
  {
    var i := |s| - |t|;
    assert forall k :: 0 <= k < |t| ==> s[i + k] == t[k];
    assert forall k :: 0 <= k < |r| ==> t[k] == r[k];
    assert forall k :: i <= k < |s| ==> s[k] == t[k - i];
    assert CutAt(s, i, r);
    assert r != [] ==> r[0] == t[0];
  }

  /** `Trim` cuts white space only, and leaves none at either end. */
  lemma TrimIsTrimOf(s: string)
    ensures IsTrimOf(s, Trim(s))
  {
    var t := TrimStart(s);
    TrimStartCuts(s);
    TrimEndCuts(t);
    TwoCutsTrim(s, t, TrimEnd(t));
  }

  /** Cutting a white-space prefix that stops at a non-white character is `TrimStart`. */
  lemma {:induction false} TrimStartAt(s: string, i: nat)
    requires i <= |s| && forall k :: 0 <= k < i ==> IsWhiteSpace(s[k])
    requires i < |s| ==> !IsWhiteSpace(s[i])
    ensures TrimStart(s) == s[i..]
  {
    if i > 0 {
      assert s[1..][i - 1..] == s[i..];
      TrimStartAt(s[1..], i - 1);
    }
  }

  /** Cutting a white-space suffix that stops at a non-white character is `TrimEnd`. */
  lemma {:induction false} TrimEndAt(s: string, e: nat)
    requires e <= |s| && forall k :: e <= k < |s| ==> IsWhiteSpace(s[k])
    requires e > 0 ==> !IsWhiteSpace(s[e - 1])
    ensures TrimEnd(s) == s[..e]
  {
    if e < |s| {
      assert s[..|s| - 1][..e] == s[..e];
      TrimEndAt(s[..|s| - 1], e);
    }
  }

  /** With white-space margins cut off at `i`, an empty cut means all of `s` is white space. */
  lemma EmptyCut(s: string, i: nat)
    requires CutAt(s, i, [])
    ensures AllWhiteSpace(s)
  {
  }

  /** What a non-empty cut at `i` says about the rest of `s` from `i` on. */
  lemma CutSuffix(s: string, i: nat, r: string)
    requires CutAt(s, i, r) && r != []
    ensures i < |s| && s[i] == r[0]
    ensures var t := s[i..]; |r| <= |t| && t[..|r|] == r && t[|r| - 1] == r[|r| - 1]
    ensures var t := s[i..]; forall k :: |r| <= k < |t| ==> IsWhiteSpace(t[k])
  {
    assert s[i + 0] == r[0];
    var t := s[i..];
    assert forall k :: 0 <= k < |r| ==> t[..|r|][k] == s[i + k];
    assert forall k :: |r| <= k < |t| ==> t[k] == s[i + k];
  }

  /** A non-empty cut without white space at its ends is what `TrimEnd(TrimStart(s))` gives. */
  lemma NonEmptyCut(s: string, i: nat, r: string)
    requires CutAt(s, i, r) && r != []
    requires !IsWhiteSpace(r[0]) && !IsWhiteSpace(r[|r| - 1])
    ensures TrimEnd(TrimStart(s)) == r
  {
    CutSuffix(s, i, r);
    TrimStartAt(s, i);
    TrimEndAt(s[i..], |r|);
  }

  /** There is exactly one candidate trim: `Trim` is the string the definition describes. */
  lemma TrimUnique(s: string, r: string)
    requires IsTrimOf(s, r)
    ensures r == Trim(s)
  {
    var i: nat :| CutAt(s, i, r);
    if r == [] {
      EmptyCut(s, i);
    } else {
      NonEmptyCut(s, i, r);
    }
  }

  /** Text that neither begins nor ends with white space is its own trim. */
  lemma TrimNoMargins(s: string)
    requires s != [] ==> !IsWhiteSpace(s[0]) && !IsWhiteSpace(s[|s| - 1])
    ensures Trim(s) == s
  {
    assert CutAt(s, 0, s) by { assert s[..0] == [] && s[|s|..] == []; }
    TrimUnique(s, s);
  }

  /** Trimming twice is trimming once. */
  lemma {:induction false} TrimIdempotent(s: string)
    ensures Trim(Trim(s)) == Trim(s)
  {
    TrimIsTrimOf(s);
    TrimNoMargins(Trim(s));
  }

  /** The number of UTF-16 code units of `s`: JavaScript's `s.length`. A Dafny `char` is a
      Unicode scalar value; one above U+FFFF takes a surrogate pair. */
  function Utf16Length(s: string): (n: nat)
    ensures |s| <= n <= 2 * |s|
  {
    if s == [] then 0 else (if s[0] as int > 0xFFFF then 2 else 1) + Utf16Length(s[1..])
  }

  /** Text in the Basic Multilingual Plane has one code unit per character. */
  lemma {:induction false} Utf16LengthBmp(s: string)
    requires forall k :: 0 <= k < |s| ==> s[k] as int <= 0xFFFF
    ensures Utf16Length(s) == |s|
  {
    if s != [] {
      assert s[1..][0..] == s[1..];
      Utf16LengthBmp(s[1..]);
    }
  }

  /** `length` is additive over concatenation. */
  lemma {:induction false} Utf16LengthConcat(a: string, b: string)
    ensures Utf16Length(a + b) == Utf16Length(a) + Utf16Length(b)
  {
    if a == [] {
      assert a + b == b;
    } else {
      assert (a + b)[0] == a[0];
      assert (a + b)[1..] == a[1..] + b;
      Utf16LengthConcat(a[1..], b);
    }
  }
}
