/** The pieces of Python 2 text handling the interpreter uses: the regular
    expression class `\d`, `int()` on a digit string, `unicode.strip()` and
    `"\n".join(...)` with its inverse `split("\n")`. */
module Text {

  /** `\d` in a pattern compiled without `re.UNICODE` (Python 2): ASCII digits only. */
  predicate IsDigit(c: char) { '0' <= c <= '9' }

  predicate AllDigits(s: string) { forall i :: 0 <= i < |s| ==> IsDigit(s[i]) }

  /** The longest run of digits at the start of `s`: what a greedy `\d+` consumes. */
  function DigitRun(s: string): (d: string)
    ensures d <= s && AllDigits(d)
    ensures |d| < |s| ==> !IsDigit(s[|d|])
  {
    if s != [] && IsDigit(s[0]) then [s[0]] + DigitRun(s[1..]) else []
  }

  /** A digit prefix that cannot be extended is the digit run: the greedy run is unique. */
  lemma {:induction false} DigitRunUnique(s: string, d: string)
    requires d <= s && AllDigits(d)
    requires |d| < |s| ==> !IsDigit(s[|d|])
    ensures DigitRun(s) == d
  {
    if d != [] {
      DigitRunUnique(s[1..], d[1..]);
    }
  }

  /** `int(s)` for a string of ASCII digits (leading zeros allowed). */
  function DigitsValue(s: string): nat
    requires AllDigits(s)
  {
    if s == [] then 0 else 10 * DigitsValue(s[..|s| - 1]) + (s[|s| - 1] as int - '0' as int)
  }

  /** Whitespace for `unicode.strip()` in Python 2.7: the characters whose
      bidirectional class is WS, B or S, or whose category is Zs. */
  predicate IsSpace(c: char)
  {
    c == ' ' || '\t' <= c <= '\r' || '\U{1C}' <= c <= '\U{1F}' || c == '\U{85}' || c == '\U{A0}'
    || c == '\U{1680}' || c == '\U{180E}' || '\U{2000}' <= c <= '\U{200A}' || c == '\U{2028}'
    || c == '\U{2029}' || c == '\U{202F}' || c == '\U{205F}' || c == '\U{3000}'
  }

  predicate AllSpace(s: string) { forall i :: 0 <= i < |s| ==> IsSpace(s[i]) }

  /** `s.strip()`: drops whitespace from both ends until neither end is
      whitespace. */
  function Strip(s: string): (r: string)
    ensures r == [] || (!IsSpace(r[0]) && !IsSpace(r[|r| - 1]))
    decreases |s|
  {
    if s != [] && IsSpace(s[0]) then Strip(s[1..])
    else if s != [] && IsSpace(s[|s| - 1]) then Strip(s[..|s| - 1])
    else s
  }

  /** What `strip()` drops is whitespace: `s` is some whitespace, then the
      result, then some whitespace. */
  lemma {:induction false} StripSpec(s: string) returns (i: nat, j: nat)
    ensures i <= j <= |s| && s[i..j] == Strip(s)
    ensures AllSpace(s[..i]) && AllSpace(s[j..])
    decreases |s|
  {
    if s != [] && IsSpace(s[0]) {
      var i', j' := StripSpec(s[1..]);
      i, j := SpaceBefore(s, i', j');
    } else if s != [] && IsSpace(s[|s| - 1]) {
      i, j := StripSpec(s[..|s| - 1]);
      SpaceAfter(s, i, j);
    } else {
      i, j := 0, |s|;
    }
  }

  /** Whitespace put before a padded piece of text is more padding. */
  lemma SpaceBefore(s: string, i': nat, j': nat) returns (i: nat, j: nat)
    requires s != [] && IsSpace(s[0])
    requires i' <= j' <= |s| - 1 && AllSpace(s[1..][..i']) && AllSpace(s[1..][j'..])
    ensures i == i' + 1 && j == j' + 1 && s[i..j] == s[1..][i'..j']
    ensures AllSpace(s[..i]) && AllSpace(s[j..])
  {
    i, j := i' + 1, j' + 1;
    var t := s[1..];
    forall k | 0 <= k < i ensures IsSpace(s[..i][k]) {
      if k > 0 { assert s[..i][k] == t[..i'][k - 1]; }
    }
    assert s[i..j] == t[i'..j'] by {
      forall k | 0 <= k < j - i ensures s[i..j][k] == t[i'..j'][k] {
        assert s[i..j][k] == s[i + k] == t[i' + k];
      }
    }
    assert s[j..] == t[j'..];
  }

  /** So is whitespace put after it. */
  lemma SpaceAfter(s: string, i: nat, j: nat)
    requires s != [] && IsSpace(s[|s| - 1])
    requires i <= j <= |s| - 1 && AllSpace(s[..|s| - 1][..i]) && AllSpace(s[..|s| - 1][j..])
    ensures s[i..j] == s[..|s| - 1][i..j]
    ensures AllSpace(s[..i]) && AllSpace(s[j..])
  {
    var t := s[..|s| - 1];
    assert s[..i] == t[..i];
    forall k | j <= k < |s| ensures IsSpace(s[k]) {
      if k < |s| - 1 { assert s[k] == t[j..][k - j]; }
    }
  }

  /** Stripping twice is stripping once. */
  lemma StripIdempotent(s: string)
    ensures Strip(Strip(s)) == Strip(s)
  {
  }

  /** Stripping text padded with whitespace on both sides gives the text
      back, provided it neither starts nor ends with whitespace itself. */
  lemma {:induction false} StripPadded(a: string, x: string, b: string)
    requires AllSpace(a) && AllSpace(b)
    requires x == [] || (!IsSpace(x[0]) && !IsSpace(x[|x| - 1]))
    ensures Strip(a + x + b) == x
    decreases |a| + |b|
  {
    var s := a + x + b;
    if a != [] {
      assert s[1..] == a[1..] + x + b;
      StripPadded(a[1..], x, b);
    } else if b != [] {
      assert s == x + b;
      if x == [] {
        assert s[0] == b[0];
        assert s[1..] == [] + [] + b[1..];
        StripPadded([], [], b[1..]);
      } else {
        assert s[..|s| - 1] == [] + x + b[..|b| - 1];
        StripPadded([], x, b[..|b| - 1]);
      }
    } else {
      assert s == x;
    }
  }

  /** `sep.join(parts)`. */
  function Join(sep: string, parts: seq<string>): (r: string)
  {
    if parts == [] then []
    else if |parts| == 1 then parts[0]
    else parts[0] + sep + Join(sep, parts[1..])
  }

  /** `s.split(c)` for a one-character separator: the pieces between the
      occurrences of `c`; there is always at least one piece. */
  function Split(c: char, s: string): (r: seq<string>)
    ensures |r| >= 1
  {
    if s == [] then [[]]
    else
      var rest := Split(c, s[1..]);
      if s[0] == c then [[]] + rest else [[s[0]] + rest[0]] + rest[1..]
  }

  lemma {:induction false} SplitAfterPiece(c: char, p: string, t: string)
    requires c !in p
    ensures Split(c, p + [c] + t) == [p] + Split(c, t)
  {
    if p != [] {
      assert (p + [c] + t)[1..] == p[1..] + [c] + t;
      SplitAfterPiece(c, p[1..], t);
      assert [p[0]] + p[1..] == p;
    } else {
      assert ([c] + t)[1..] == t;
    }
  }

  lemma {:induction false} SplitNoSeparator(c: char, p: string)
    requires c !in p
    ensures Split(c, p) == [p]
  {
    if p != [] {
      SplitNoSeparator(c, p[1..]);
      assert [p[0]] + p[1..] == p;
    }
  }

  /** Joining non-empty list of lines that hold no separator and splitting
      the result again gives the lines back: one line per part. */
  lemma {:induction false} SplitJoin(c: char, parts: seq<string>)
    requires parts != []
    requires forall i :: 0 <= i < |parts| ==> c !in parts[i]
    ensures Split(c, Join([c], parts)) == parts
  {
    if |parts| == 1 {
      SplitNoSeparator(c, parts[0]);
    } else {
      SplitAfterPiece(c, parts[0], Join([c], parts[1..]));
      SplitJoin(c, parts[1..]);
    }
  }
}
