/**
 * Character classes and string helpers used by the forms and the session service:
 * JavaScript whitespace, String.prototype.trim, decimal rendering of numbers in
 * template literals, and the email pattern /\S+@\S+\.\S+/ (unanchored).
 */
module Text {

  /** The characters that JavaScript's \s matches and trim() removes. */
  predicate IsSpace(c: char) {
    c == ' ' || c == '\t' || c == '\n' || c == '\r' || c == '\U{B}' || c == '\U{C}'
    || c == '\U{A0}' || c == '\U{1680}' || ('\U{2000}' <= c <= '\U{200A}')
    || c == '\U{2028}' || c == '\U{2029}' || c == '\U{202F}' || c == '\U{205F}'
    || c == '\U{3000}' || c == '\U{FEFF}'
  }

  predicate AllSpace(s: string) {
    forall i :: 0 <= i < |s| ==> IsSpace(s[i])
  }

  /** Leading whitespace removed. */
  function TrimStart(s: string): (r: string)
    ensures |r| <= |s| && r == s[|s| - |r|..]
    ensures r == [] || !IsSpace(r[0])
  {
    if s != [] && IsSpace(s[0]) then TrimStart(s[1..]) else s
  }

  /** Trailing whitespace removed. */
  function TrimEnd(s: string): (r: string)
    ensures |r| <= |s| && r == s[..|r|]
    ensures r == [] || !IsSpace(r[|r| - 1])
  {
    if s != [] && IsSpace(s[|s| - 1]) then TrimEnd(s[..|s| - 1]) else s
  }

  /** What TrimStart drops is whitespace. */
  lemma {:induction false} TrimStartDropsSpace(s: string)
    ensures AllSpace(s[..|s| - |TrimStart(s)|])
  {
    if s != [] && IsSpace(s[0]) {
      var n := |s| - |TrimStart(s)|;
      TrimStartDropsSpace(s[1..]);
      assert s[1..][..n - 1] == s[1..n];
      assert forall k :: 1 <= k < n ==> s[..n][k] == s[1..n][k - 1];
    }
  }

  /** What TrimEnd drops is whitespace. */
  lemma {:induction false} TrimEndDropsSpace(s: string)
    ensures AllSpace(s[|TrimEnd(s)|..])
  {
    if s != [] && IsSpace(s[|s| - 1]) {
      var n := |TrimEnd(s)|;
      var u := s[..|s| - 1];
      TrimEndDropsSpace(u);
      assert forall m :: 0 <= m < |u| - n ==> s[n..][m] == u[n..][m];
    }
  }

  /** Number of leading whitespace characters. */
  function TrimOffset(s: string): nat {
    |s| - |TrimStart(s)|
  }

  /** String.prototype.trim: the text between the leading and the trailing whitespace. */
  function Trim(s: string): (r: string)
    ensures TrimOffset(s) + |r| <= |s| && r == s[TrimOffset(s)..TrimOffset(s) + |r|]
    ensures r != [] ==> !IsSpace(r[0]) && !IsSpace(r[|r| - 1])
  {
    var t := TrimStart(s);
    var r := TrimEnd(t);
    SuffixPrefix(s, t, r);
    r
  }

  /** A prefix of a suffix is a slice. */
  lemma SuffixPrefix(s: string, t: string, r: string)
    requires |t| <= |s| && t == s[|s| - |t|..] && |r| <= |t| && r == t[..|r|]
    ensures r == s[|s| - |t|..|s| - |t| + |r|]
  {
  }

  /** Trimming removes whitespace only: what lies before and after the result is all whitespace. */
  lemma TrimDropsOnlySpace(s: string)
    ensures AllSpace(s[..TrimOffset(s)]) && AllSpace(s[TrimOffset(s) + |Trim(s)|..])
  {
    var t, o := TrimStart(s), TrimOffset(s);
    var r := TrimEnd(t);
    TrimStartDropsSpace(s);
    TrimEndDropsSpace(t);
    assert s[o + |r|..] == t[|r|..];
  }

  lemma {:induction false} AllSpaceTrimsToEmpty(s: string)
    requires AllSpace(s)
    ensures TrimStart(s) == []
  {
    if s != [] {
      assert IsSpace(s[0]);
      AllSpaceTrimsToEmpty(s[1..]);
    }
  }

  /** Trimming leaves nothing exactly when the text is all whitespace. */
  lemma TrimEmptyIffAllSpace(s: string)
    ensures Trim(s) == [] <==> AllSpace(s)
  {
    if Trim(s) == [] {
      TrimDropsOnlySpace(s);
      AllSpaceSplit(s, TrimOffset(s));
    } else if AllSpace(s) {
      AllSpaceTrimsToEmpty(s);
    }
  }

  /** Trimming twice is trimming once: the trimmed text has nothing left to remove. */
  lemma TrimIdempotent(s: string)
    ensures Trim(Trim(s)) == Trim(s)
  {
    var r := Trim(s);
    assert TrimStart(r) == r;
    assert TrimEnd(r) == r;
  }

  lemma AllSpaceSplit(s: string, i: int)
    requires 0 <= i <= |s| && AllSpace(s[..i]) && AllSpace(s[i..])
    ensures AllSpace(s)
  {
    forall k | 0 <= k < |s| ensures IsSpace(s[k]) {
      if k < i {
        assert s[..i][k] == s[k];
      } else {
        assert s[i..][k - i] == s[k];
      }
    }
  }

  /** `!s.trim()`: the text is empty or only whitespace. */
  predicate IsBlank(s: string) {
    Trim(s) == []
  }

  // ---------------------------------------------------------------------------
  // Decimal rendering, as `${n}` does for integers.

  predicate IsDigit(c: char) {
    '0' <= c <= '9'
  }

  function DigitChar(d: nat): (c: char)
    requires d < 10
    ensures IsDigit(c) && c as int - '0' as int == d
  {
    (d + '0' as int) as char
  }

  function NatToString(n: nat): (r: string)
    ensures |r| >= 1
    ensures forall i :: 0 <= i < |r| ==> IsDigit(r[i])
  {
    if n < 10 then [DigitChar(n)] else NatToString(n / 10) + [DigitChar(n % 10)]
  }

  function DigitsValue(s: string): nat
    requires forall i :: 0 <= i < |s| ==> IsDigit(s[i])
  {
    if s == [] then 0
    else
      assert IsDigit(s[|s| - 1]);
      DigitsValue(s[..|s| - 1]) * 10 + (s[|s| - 1] as int - '0' as int)
  }

  /** Reading the digits back gives the number: the rendering loses nothing. */
  lemma {:induction false} NatToStringRoundTrip(n: nat)
    ensures DigitsValue(NatToString(n)) == n
  {
    if n >= 10 {
      var r := NatToString(n);
      NatToStringRoundTrip(n / 10);
      assert r[..|r| - 1] == NatToString(n / 10);
    }
  }

  /** `${i}` for an integer: a minus sign before the digits of a negative number. */
  function IntToString(i: int): (r: string)
    ensures r != [] && (r[0] == '-' <==> i < 0)
    ensures forall k :: 0 < k < |r| ==> IsDigit(r[k])
    ensures i >= 0 ==> IsDigit(r[0])
  {
    if i < 0 then "-" + NatToString(-i) else NatToString(i)
  }

  /** Different integers render differently. */
  lemma IntToStringInjective(a: int, b: int)
    requires IntToString(a) == IntToString(b)
    ensures a == b
  {
    if a < 0 {
      assert IntToString(a)[1..] == NatToString(-a);
      assert IntToString(b)[1..] == NatToString(-b);
      NatToStringRoundTrip(-a);
      NatToStringRoundTrip(-b);
    } else {
      NatToStringRoundTrip(a);
      NatToStringRoundTrip(b);
    }
  }

  // ---------------------------------------------------------------------------
  // The email pattern /\S+@\S+\.\S+/ tested with RegExp.prototype.test: it matches
  // when SOME substring has that shape, since the pattern has no anchors.

  ghost predicate NonSpaceRun(s: string, i: int, j: int)
    requires 0 <= i <= j <= |s|
  {
    i < j && forall k :: i <= k < j ==> !IsSpace(s[k])
  }

  /** s[i..j] is a match: non-space run, '@' at `at`, non-space run, '.' at `dot`, non-space run. */
  ghost predicate EmailMatchAt(s: string, i: int, at: int, dot: int, j: int) {
    && 0 <= i < at < dot < j <= |s|
    && s[at] == '@' && s[dot] == '.'
    && NonSpaceRun(s, i, at) && NonSpaceRun(s, at + 1, dot) && NonSpaceRun(s, dot + 1, j)
  }

  ghost predicate EmailPattern(s: string) {
    exists i, at, dot, j :: EmailMatchAt(s, i, at, dot, j)
  }

  /** A '.' at `dot` closes the middle run that starts at `from`. */
  ghost predicate DotCloses(s: string, from: int, k: int, dot: int) {
    && 0 <= from <= k <= dot && dot + 1 < |s|
    && from < dot && s[dot] == '.' && !IsSpace(s[dot + 1])
    && forall m :: k <= m < dot ==> !IsSpace(s[m])
  }

  /** Scans the non-space run from k on for a '.' after `from` that a non-space character follows. */
  function DotInRun(s: string, k: int, from: int): bool
    requires 0 <= from <= k <= |s|
    decreases |s| - k
  {
    if k == |s| || IsSpace(s[k]) then false
    else if k > from && s[k] == '.' && k + 1 < |s| && !IsSpace(s[k + 1]) then true
    else DotInRun(s, k + 1, from)
  }

  /** An '@' at some position from b on, with a non-space character before it and a closing '.' after it. */
  function AtFrom(s: string, b: int): bool
    requires 0 <= b <= |s|
    decreases |s| - b
  {
    if b == |s| then false
    else (s[b] == '@' && b > 0 && !IsSpace(s[b - 1]) && DotInRun(s, b + 1, b + 1)) || AtFrom(s, b + 1)
  }

  lemma {:induction false} DotInRunSound(s: string, k: int, from: int)
    requires 0 <= from <= k <= |s|
    requires DotInRun(s, k, from)
    ensures exists dot :: DotCloses(s, from, k, dot)
    decreases |s| - k
  {
    if k > from && s[k] == '.' && k + 1 < |s| && !IsSpace(s[k + 1]) {
      assert DotCloses(s, from, k, k);
    } else {
      DotInRunSound(s, k + 1, from);
      var dot :| DotCloses(s, from, k + 1, dot);
      assert DotCloses(s, from, k, dot);
    }
  }

  lemma {:induction false} DotInRunComplete(s: string, k: int, from: int, dot: int)
    requires 0 <= from <= k <= |s|
    requires DotCloses(s, from, k, dot)
    ensures DotInRun(s, k, from)
    decreases |s| - k
  {
    if k < dot {
      DotInRunComplete(s, k + 1, from, dot);
    }
  }

  lemma {:induction false} AtFromSound(s: string, b: int)
    requires 0 <= b <= |s|
    requires AtFrom(s, b)
    ensures EmailPattern(s)
    decreases |s| - b
  {
    if s[b] == '@' && b > 0 && !IsSpace(s[b - 1]) && DotInRun(s, b + 1, b + 1) {
      DotInRunSound(s, b + 1, b + 1);
      var dot :| DotCloses(s, b + 1, b + 1, dot);
      assert EmailMatchAt(s, b - 1, b, dot, dot + 2);
    } else {
      AtFromSound(s, b + 1);
    }
  }

  lemma {:induction false} AtFromComplete(s: string, b: int, i: int, at: int, dot: int, j: int)
    requires 0 <= b <= at
    requires EmailMatchAt(s, i, at, dot, j)
    ensures AtFrom(s, b)
    decreases |s| - b
  {
    if b < at {
      AtFromComplete(s, b + 1, i, at, dot, j);
    } else {
      assert !IsSpace(s[at - 1]);
      assert !IsSpace(s[dot + 1]);
      DotInRunComplete(s, at + 1, at + 1, dot);
    }
  }

  /** The regular-expression test, decided by one scan; it agrees with the pattern's meaning. */
  function MatchesEmail(s: string): (r: bool)
    ensures r <==> EmailPattern(s)
  {
    var r := AtFrom(s, 0);
    if r then AtFromSound(s, 0); r
    else
      assert !EmailPattern(s) by {
        if EmailPattern(s) {
          var i, at, dot, j :| EmailMatchAt(s, i, at, dot, j);
          AtFromComplete(s, 0, i, at, dot, j);
        }
      }
      r
  }

  /** A non-space character lies between the leading and the trailing whitespace. */
  lemma InsideTrim(s: string, o: int, n: int, k: int)
    requires 0 <= o && 0 <= n && o + n <= |s| && AllSpace(s[..o]) && AllSpace(s[o + n..])
    requires 0 <= k < |s| && !IsSpace(s[k])
    ensures o <= k < o + n
  {
    assert forall m :: 0 <= m < o ==> s[..o][m] == s[m];
    assert forall m :: o + n <= m < |s| ==> s[o + n..][m - o - n] == s[m];
  }

  lemma MatchEnds(s: string, i: int, at: int, dot: int, j: int)
    requires EmailMatchAt(s, i, at, dot, j)
    ensures !IsSpace(s[i]) && !IsSpace(s[j - 1])
  {
    assert NonSpaceRun(s, i, at) && NonSpaceRun(s, dot + 1, j);
  }

  /** A match inside a slice is a match of the slice, shifted. */
  lemma MatchInSlice(s: string, o: int, n: int, i: int, at: int, dot: int, j: int)
    requires 0 <= o <= i && j <= o + n <= |s|
    requires EmailMatchAt(s, i, at, dot, j)
    ensures EmailMatchAt(s[o..o + n], i - o, at - o, dot - o, j - o)
  {
    var r := s[o..o + n];
    assert forall k :: o <= k < o + n ==> r[k - o] == s[k];
    assert NonSpaceRun(r, i - o, at - o);
    assert NonSpaceRun(r, at - o + 1, dot - o);
    assert NonSpaceRun(r, dot - o + 1, j - o);
  }

  /** A match inside the part that whitespace surrounds is a match of that part. */
  lemma MatchInside(s: string, o: int, n: int, i: int, at: int, dot: int, j: int)
    requires 0 <= o && 0 <= n && o + n <= |s| && AllSpace(s[..o]) && AllSpace(s[o + n..])
    requires EmailMatchAt(s, i, at, dot, j)
    ensures EmailMatchAt(s[o..o + n], i - o, at - o, dot - o, j - o)
  {
    MatchEnds(s, i, at, dot, j);
    InsideTrim(s, o, n, i);
    InsideTrim(s, o, n, j - 1);
    MatchInSlice(s, o, n, i, at, dot, j);
  }

  /**
   * A match lies inside the non-space part of s, so trimming keeps it: the
   * trimmed text sent to the service still has the shape the form checked.
   */
  lemma EmailPatternSurvivesTrim(s: string)
    requires EmailPattern(s)
    ensures EmailPattern(Trim(s))
  {
    var i, at, dot, j :| EmailMatchAt(s, i, at, dot, j);
    var r, o := Trim(s), TrimOffset(s);
    TrimDropsOnlySpace(s);
    MatchInside(s, o, |r|, i, at, dot, j);
    assert EmailMatchAt(r, i - o, at - o, dot - o, j - o);
  }

  /** Text that matches the pattern holds a non-space character, so the blank check never hides a match. */
  lemma EmailPatternNotBlank(s: string)
    ensures EmailPattern(s) ==> !AllSpace(s)
  {
    if EmailPattern(s) {
      var i, at, dot, j :| EmailMatchAt(s, i, at, dot, j);
      MatchEnds(s, i, at, dot, j);
    }
  }

  /** Text placed before a match does not disturb it: the pattern is unanchored. */
  lemma EmailPatternAfterPrefix(p: string, s: string)
    requires EmailPattern(s)
    ensures EmailPattern(p + s)
  {
    var i, at, dot, j :| EmailMatchAt(s, i, at, dot, j);
    var t, n := p + s, |p|;
    assert forall k :: 0 <= k < |s| ==> t[k + n] == s[k];
    assert NonSpaceRun(t, i + n, at + n);
    assert NonSpaceRun(t, at + n + 1, dot + n);
    assert NonSpaceRun(t, dot + n + 1, j + n);
    assert EmailMatchAt(t, i + n, at + n, dot + n, j + n);
  }
}
