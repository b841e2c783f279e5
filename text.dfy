/** Character classes and trimming as the browser's JavaScript engine defines them:
    the `\d` and `\s` classes of a regular expression and `String.prototype.trim`. */
module Text {

  /** `\s` in an ECMAScript regular expression; `trim` removes exactly the same set
      (the WhiteSpace and LineTerminator code points). */
  predicate IsSpace(c: char) {
    c == '\t' || c == '\n' || c == '\U{000B}' || c == '\U{000C}' || c == '\r' || c == ' '
    || c == '\U{00A0}' || c == '\U{1680}' || ('\U{2000}' <= c <= '\U{200A}')
    || c == '\U{2028}' || c == '\U{2029}' || c == '\U{202F}' || c == '\U{205F}'
    || c == '\U{3000}' || c == '\U{FEFF}'
  }

  /** `\d`: the ASCII decimal digits only. */
  predicate IsDigit(c: char) {
    '0' <= c <= '9'
  }

  predicate AllSpace(s: string) {
    forall i :: 0 <= i < |s| ==> IsSpace(s[i])
  }

  predicate AllDigits(s: string) {
    forall i :: 0 <= i < |s| ==> IsDigit(s[i])
  }

  /** Neither end of `s` is whitespace: what `trim` leaves behind. */
  predicate Trimmed(s: string) {
    s == [] || (!IsSpace(s[0]) && !IsSpace(s[|s| - 1]))
  }

  /** Number of leading digits of `s` (the greedy `\d+` run). */
  function DigitRun(s: string): (n: nat)
    ensures n <= |s| && AllDigits(s[..n])
    ensures n == |s| || !IsDigit(s[n])
  {
    if s != [] && IsDigit(s[0]) then 1 + DigitRun(s[1..]) else 0
  }

  /** Number of leading whitespace characters of `s` (the greedy `\s+` run). */
  function SpaceRun(s: string): (n: nat)
    ensures n <= |s| && AllSpace(s[..n])
    ensures n == |s| || !IsSpace(s[n])
  {
    if s != [] && IsSpace(s[0]) then 1 + SpaceRun(s[1..]) else 0
  }

  /** Number of trailing whitespace characters of `s`. */
  function TrailRun(s: string): (n: nat)
    ensures n <= |s| && AllSpace(s[|s| - n..])
    ensures n == |s| || !IsSpace(s[|s| - n - 1])
  {
    if s != [] && IsSpace(s[|s| - 1]) then
      var n := 1 + TrailRun(s[..|s| - 1]);
      assert forall k :: |s| - n <= k < |s| - 1 ==> s[k] == s[..|s| - 1][k];
      n
    else 0
  }

  /** `String.prototype.trim`: what is left between the leading and the trailing
      whitespace; blank exactly when `s` is all whitespace. */
  function Trim(s: string): (r: string)
    ensures Trimmed(r)
    ensures r == [] <==> AllSpace(s)
  {
    var t := s[SpaceRun(s)..];
    var r := t[..|t| - TrailRun(t)];
    assert r != [] ==> r[0] == t[0] && r[|r| - 1] == t[|r| - 1];
    assert SpaceRun(s) < |s| ==> t[0] == s[SpaceRun(s)] && t[|t| - |t|..][0] == t[0];
    assert r == [] ==> SpaceRun(s) == |s| && s[..|s|] == s;
    r
  }

  /** Leading whitespace followed by a non-space character: the run stops there. */
  lemma SpaceRunPadded(a: string, y: string)
    requires AllSpace(a) && (y == [] || !IsSpace(y[0]))
    ensures SpaceRun(a + y) == |a|
  {
    if a != [] {
      assert (a + y)[1..] == a[1..] + y;
      SpaceRunPadded(a[1..], y);
    } else {
      assert a + y == y;
    }
  }

  /** Leading digits followed by a non-digit: the run stops there. */
  lemma DigitRunPadded(a: string, y: string)
    requires AllDigits(a) && (y == [] || !IsDigit(y[0]))
    ensures DigitRun(a + y) == |a|
  {
    if a != [] {
      assert (a + y)[1..] == a[1..] + y;
      DigitRunPadded(a[1..], y);
    } else {
      assert a + y == y;
    }
  }

  /** Trailing whitespace preceded by a non-space character: the run stops there. */
  lemma {:induction false} TrailRunPadded(y: string, b: string)
    requires AllSpace(b) && (y == [] || !IsSpace(y[|y| - 1]))
    ensures TrailRun(y + b) == |b|
    decreases |b|
  {
    if b != [] {
      var s := y + b;
      assert s[|s| - 1] == b[|b| - 1];
      assert s[..|s| - 1] == y + b[..|b| - 1];
      TrailRunPadded(y, b[..|b| - 1]);
    } else {
      assert y + b == y;
    }
  }

  /** Trim strips whatever whitespace surrounds a trimmed text, and only that. */
  lemma TrimPadded(a: string, x: string, b: string)
    requires AllSpace(a) && AllSpace(b) && Trimmed(x)
    ensures Trim(a + x + b) == x
  {
    var s := a + x + b;
    if x == [] {
      assert s == a + b;
      assert forall k :: 0 <= k < |s| ==> s[k] == (if k < |a| then a[k] else b[k - |a|]);
    } else {
      assert s == a + (x + b);
      SpaceRunPadded(a, x + b);
      assert s[|a|..] == x + b;
      TrailRunPadded(x, b);
      assert (x + b)[..|x|] == x;
    }
  }

  /** Trimming a trimmed text changes nothing. */
  lemma TrimTrimmed(x: string)
    requires Trimmed(x)
    ensures Trim(x) == x
  {
    TrimPadded([], x, []);
    assert [] + x + [] == x;
  }

  /** No character of `s` is a digit. */
  predicate DigitFree(s: string) {
    forall c :: c in s ==> !IsDigit(c)
  }
}
