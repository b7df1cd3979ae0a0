/** The two functions of Go's `strings` package that the authentication core
    uses to normalise its input: TrimSpace (with the white-space set of
    unicode.IsSpace) and ToLower (restricted to ASCII letters). */
module Strings {

  /** unicode.IsSpace: the Latin-1 spaces and the Unicode White_Space code
      points above Latin-1. */
  predicate IsSpace(c: char)
  {
    || c == ' ' || c == '\t' || c == '\n' || c == '\U{B}' || c == '\U{C}' || c == '\r'
    || c == '\U{85}' || c == '\U{A0}' || c == '\U{1680}'
    || ('\U{2000}' <= c <= '\U{200A}')
    || c == '\U{2028}' || c == '\U{2029}' || c == '\U{202F}' || c == '\U{205F}' || c == '\U{3000}'
  }

  predicate AllSpace(s: string)
  {
    forall i :: 0 <= i < |s| ==> IsSpace(s[i])
  }

  predicate IsUpper(c: char)
  {
    'A' <= c <= 'Z'
  }

  function LowerChar(c: char): (d: char)
    ensures !IsUpper(d)
    ensures IsSpace(d) <==> IsSpace(c)
    ensures !IsUpper(c) ==> d == c
    ensures IsUpper(c) ==> 'a' <= d <= 'z' && d as int - 'a' as int == c as int - 'A' as int
  {
    if IsUpper(c) then (c as int + 32) as char else c
  }

  /** strings.ToLower on ASCII letters: every character is mapped on its own. */
  function ToLower(s: string): (r: string)
    ensures |r| == |s|
  {
    if s == [] then [] else [LowerChar(s[0])] + ToLower(s[1..])
  }

  lemma {:induction false} ToLowerAt(s: string)
    ensures forall i :: 0 <= i < |s| ==> ToLower(s)[i] == LowerChar(s[i])
  {
    if s != [] {
      ToLowerAt(s[1..]);
      assert forall i :: 1 <= i < |s| ==> ToLower(s)[i] == ToLower(s[1..])[i - 1];
    }
  }

  /** Drops the leading white space. */
  function TrimLeft(s: string): string
  {
    if s != [] && IsSpace(s[0]) then TrimLeft(s[1..]) else s
  }

  /** TrimLeft cuts a white-space prefix and stops at the first other character. */
  lemma {:induction false} TrimLeftCutsSpacePrefix(s: string)
    ensures var r := TrimLeft(s);
      && |r| <= |s| && r == s[|s| - |r|..]
      && AllSpace(s[..|s| - |r|])
      && (r == [] || !IsSpace(r[0]))
  {
    if s != [] && IsSpace(s[0]) {
      TrimLeftCutsSpacePrefix(s[1..]);
      var r := TrimLeft(s);
      assert s[..|s| - |r|] == [s[0]] + s[1..][..|s| - 1 - |r|];
    }
  }

  /** Drops the trailing white space. */
  function TrimRight(s: string): string
  {
    if s != [] && IsSpace(s[|s| - 1]) then TrimRight(s[..|s| - 1]) else s
  }

  /** TrimRight cuts a white-space suffix and stops at the last other character. */
  lemma {:induction false} TrimRightCutsSpaceSuffix(s: string)
    ensures var r := TrimRight(s);
      && |r| <= |s| && r == s[..|r|]
      && AllSpace(s[|r|..])
      && (r == [] || !IsSpace(r[|r| - 1]))
  {
    if s != [] && IsSpace(s[|s| - 1]) {
      TrimRightCutsSpaceSuffix(s[..|s| - 1]);
      var r := TrimRight(s);
      assert s[|r|..] == s[..|s| - 1][|r|..] + [s[|s| - 1]];
    }
  }

  /** `r` is `s` with a white-space prefix and a white-space suffix cut off. */
  ghost predicate IsTrimOf(s: string, r: string)
  {
    exists i, j :: 0 <= i <= j <= |s| && r == s[i..j] && AllSpace(s[..i]) && AllSpace(s[j..])
  }

  /** strings.TrimSpace. */
  function TrimSpace(s: string): string
  {
    TrimRight(TrimLeft(s))
  }

  /** TrimSpace removes the leading and trailing white space, and nothing else. */
  lemma TrimSpaceCutsSpace(s: string)
    ensures IsTrimOf(s, TrimSpace(s))
    ensures var r := TrimSpace(s); r == [] || (!IsSpace(r[0]) && !IsSpace(r[|r| - 1]))
  {
    var left := TrimLeft(s);
    TrimLeftCutsSpacePrefix(s);
    TrimRightCutsSpaceSuffix(left);
    var r := TrimRight(left);
    var i := |s| - |left|;
    assert r == s[i..i + |r|];
    assert s[i + |r|..] == left[|r|..];
  }

  /** The email key used by registration and login: trimmed, lower-cased. */
  function NormalizeEmail(s: string): string
  {
    TrimSpace(ToLower(s))
  }

  lemma {:induction false} LowerIsFixed(s: string)
    requires forall i :: 0 <= i < |s| ==> !IsUpper(s[i])
    ensures ToLower(s) == s
  {
    if s != [] {
      LowerIsFixed(s[1..]);
    }
  }

  lemma TrimOfTrimmed(s: string)
    requires s == [] || (!IsSpace(s[0]) && !IsSpace(s[|s| - 1]))
    ensures TrimSpace(s) == s
  {
    assert TrimLeft(s) == s;
    assert TrimRight(s) == s;
  }

  /** Trimming twice is trimming once. */
  lemma TrimSpaceIdempotent(s: string)
    ensures TrimSpace(TrimSpace(s)) == TrimSpace(s)
  {
    TrimSpaceCutsSpace(s);
    TrimOfTrimmed(TrimSpace(s));
  }

  /** Trimming never brings back an upper-case letter. */
  lemma TrimKeepsLower(t: string)
    requires forall k :: 0 <= k < |t| ==> !IsUpper(t[k])
    ensures forall k :: 0 <= k < |TrimSpace(t)| ==> !IsUpper(TrimSpace(t)[k])
  {
    var n := TrimSpace(t);
    TrimSpaceCutsSpace(t);
    var i, j :| 0 <= i <= j <= |t| && n == t[i..j] && AllSpace(t[..i]) && AllSpace(t[j..]);
    forall k | 0 <= k < |n| ensures !IsUpper(n[k]) {
      assert n[k] == t[i + k];
    }
  }

  /** A normalised email is its own normal form, so normalising again (as a
      second registration or a login does) finds the same key. */
  lemma NormalizeEmailIdempotent(s: string)
    ensures NormalizeEmail(NormalizeEmail(s)) == NormalizeEmail(s)
    ensures forall i :: 0 <= i < |NormalizeEmail(s)| ==> !IsUpper(NormalizeEmail(s)[i])
  {
    var n := NormalizeEmail(s);
    ToLowerAt(s);
    TrimKeepsLower(ToLower(s));
    TrimSpaceCutsSpace(ToLower(s));
    assert forall k :: 0 <= k < |n| ==> !IsUpper(n[k]);
    LowerIsFixed(n);
    assert ToLower(n) == n;
    TrimOfTrimmed(n);
  }

  /** ToLower maps each character on its own, so it distributes over concatenation. */
  lemma ToLowerAppend(a: string, b: string)
    ensures ToLower(a + b) == ToLower(a) + ToLower(b)
  {
    ToLowerAt(a + b);
    ToLowerAt(a);
    ToLowerAt(b);
  }

  /** Only white space: TrimLeft leaves nothing. */
  lemma {:induction false} TrimLeftOfSpace(s: string)
    requires AllSpace(s)
    ensures TrimLeft(s) == []
  {
    if s != [] {
      TrimLeftOfSpace(s[1..]);
    }
  }

  /** TrimLeft of a concatenation cuts into the second part only when the
      first is all white space. */
  lemma {:induction false} TrimLeftAppend(x: string, q: string)
    ensures TrimLeft(x + q) == if AllSpace(x) then TrimLeft(q) else TrimLeft(x) + q
  {
    if x != [] {
      assert (x + q)[1..] == x[1..] + q;
      TrimLeftAppend(x[1..], q);
      if IsSpace(x[0]) {
        assert AllSpace(x) <==> AllSpace(x[1..]);
      } else {
        assert !AllSpace(x);
      }
    } else {
      assert x + q == q;
    }
  }

  /** Trailing white space makes no difference to TrimRight. */
  lemma {:induction false} TrimRightPadded(y: string, q: string)
    requires AllSpace(q)
    ensures TrimRight(y + q) == TrimRight(y)
  {
    if q != [] {
      var q' := q[..|q| - 1];
      assert (y + q)[..|y + q| - 1] == y + q';
      TrimRightPadded(y, q');
    } else {
      assert y + q == y;
    }
  }

  /** Leading white space makes no difference to TrimLeft. */
  lemma {:induction false} TrimLeftPadded(p: string, y: string)
    requires AllSpace(p)
    ensures TrimLeft(p + y) == TrimLeft(y)
  {
    if p != [] {
      assert (p + y)[1..] == p[1..] + y;
      TrimLeftPadded(p[1..], y);
    } else {
      assert p + y == y;
    }
  }

  /** White space around a string makes no difference to TrimSpace. */
  lemma TrimSpacePadded(p: string, x: string, q: string)
    requires AllSpace(p) && AllSpace(q)
    ensures TrimSpace(p + x + q) == TrimSpace(x)
  {
    assert p + x + q == p + (x + q);
    TrimLeftPadded(p, x + q);
    TrimLeftAppend(x, q);
    if AllSpace(x) {
      TrimLeftOfSpace(q);
      TrimLeftOfSpace(x);
    } else {
      TrimRightPadded(TrimLeft(x), q);
    }
  }

  /** ToLower leaves white space white space. */
  lemma SpaceStaysSpace(s: string)
    requires AllSpace(s)
    ensures AllSpace(ToLower(s))
  {
    ToLowerAt(s);
  }

  /** Two emails that differ only in the case of ASCII letters and in white
      space around them have the same key. */
  lemma NormalizeIgnoresCaseAndPadding(p: string, s: string, t: string, q: string)
    requires AllSpace(p) && AllSpace(q)
    requires |s| == |t| && forall i :: 0 <= i < |s| ==> LowerChar(s[i]) == LowerChar(t[i])
    ensures NormalizeEmail(p + s + q) == NormalizeEmail(t)
  {
    ToLowerAppend(p + s, q);
    ToLowerAppend(p, s);
    ToLowerAt(s);
    ToLowerAt(t);
    assert ToLower(s) == ToLower(t);
    SpaceStaysSpace(p);
    SpaceStaysSpace(q);
    TrimSpacePadded(ToLower(p), ToLower(t), ToLower(q));
  }
}
