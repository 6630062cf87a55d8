/** The command patterns. Each registered pattern is a Python regular
    expression, compiled with `re.M | re.S` and tried with `pattern.match`,
    which anchors the match at the start of the input but lets any text
    follow it. The eleven patterns of the interpreter use only three shapes,
    and this module models exactly those: a literal prefix; a literal prefix
    followed by `(\d+)`; and a literal prefix followed by `(\d+)(.*)`, where
    `.` matches newlines too because of `re.S`. A leading `^` is allowed and
    changes nothing, since `match` already starts at position 0. */
module Pattern {
  import opened Options
  import opened Text

  datatype Matcher =
    | Literal(prefix: string)      // `-help`: nothing is captured
    | Digits(prefix: string)       // `-qn (\d+)`: captures the digit run
    | DigitsRest(prefix: string)   // `#(\d+)(.*)`: captures the digit run and all that follows

  /** The number of groups the pattern defines: the length of `sre.groups()`. */
  function GroupCount(m: Matcher): nat
  {
    match m
    case Literal(_) => 0
    case Digits(_) => 1
    case DigitsRest(_) => 2
  }

  /** `pattern.match(s)`: None when the pattern does not match at position 0,
      otherwise the positional captures. */
  function Match(m: Matcher, s: string): (r: Option<seq<string>>)
    ensures r.Some? ==> m.prefix <= s && |r.value| == GroupCount(m)
    ensures r.Some? && |r.value| > 0 ==> r.value[0] != [] && AllDigits(r.value[0])
  {
    if !(m.prefix <= s) then None
    else
      var rest := s[|m.prefix|..];
      var d := DigitRun(rest);
      match m
      case Literal(_) => Some([])
      case Digits(_) => if d == [] then None else Some([d])
      case DigitsRest(_) => if d == [] then None else Some([d, rest[|d|..]])
  }

  /** A literal pattern matches exactly the inputs it is a prefix of, so
      trailing text never stops it. */
  lemma LiteralMatchIff(p: string, s: string)
    ensures Match(Literal(p), s) == (if p <= s then Some([]) else None)
  {
  }

  /** `prefix(\d+)` matches `s` with capture `d` exactly when `s` starts with
      the prefix followed by `d`, `d` is a non-empty run of digits, and the
      character after it (if any) is not a digit. */
  lemma DigitsMatchIff(p: string, s: string, d: string)
    ensures Match(Digits(p), s) == Some([d])
        <==> p + d <= s && d != [] && AllDigits(d) && (|p| + |d| < |s| ==> !IsDigit(s[|p| + |d|]))
  {
    if p + d <= s && d != [] && AllDigits(d) && (|p| + |d| < |s| ==> !IsDigit(s[|p| + |d|])) {
      assert s[|p|..][..|d|] == d;
      DigitRunUnique(s[|p|..], d);
    }
  }

  /** `prefix(\d+)(.*)` with DOTALL matches `s` with captures `d` and `t`
      exactly when `s` is the prefix, then `d`, then `t`, where `d` is a
      non-empty run of digits and `t` does not start with a digit. The two
      captures rebuild the whole input after the prefix, newlines included. */
  lemma DigitsRestMatchIff(p: string, s: string, d: string, t: string)
    ensures Match(DigitsRest(p), s) == Some([d, t])
        <==> s == p + d + t && d != [] && AllDigits(d) && (t != [] ==> !IsDigit(t[0]))
  {
    if s == p + d + t && d != [] && AllDigits(d) && (t != [] ==> !IsDigit(t[0])) {
      assert s[|p|..] == d + t;
      DigitRunUnique(d + t, d);
    }
    if Match(DigitsRest(p), s) == Some([d, t]) {
      assert s == p + s[|p|..];
      assert s[|p|..] == d + s[|p|..][|d|..];
    }
  }

  /** On a prefix, a digit run and text that does not start with a digit,
      `prefix(\d+)` captures the run and `prefix(\d+)(.*)` captures the run
      and the text. */
  lemma DigitsThen(p: string, d: string, rest: string)
    requires d != [] && AllDigits(d) && (rest != [] ==> !IsDigit(rest[0]))
    ensures Match(Digits(p), p + d + rest) == Some([d])
    ensures Match(DigitsRest(p), p + d + rest) == Some([d, rest])
  {
    var s := p + d + rest;
    assert p + d <= s;
    assert |p| + |d| < |s| ==> s[|p| + |d|] == rest[0];
    DigitsMatchIff(p, s, d);
    DigitsRestMatchIff(p, s, d, rest);
  }

  /** Characters with a special meaning in a Python regular expression. */
  predicate IsMeta(c: char)
  {
    // $ ( ) * + . ? [ \ ] ^ { | }
    c == '$' || '(' <= c <= '+' || c == '.' || c == '?' || '[' <= c <= '^' || '{' <= c <= '}'
  }

  /** No character of `t` from index `k` on is special. */
  predicate PlainFrom(t: string, k: nat)
    decreases |t| - k
  {
    k >= |t| || (!IsMeta(t[k]) && PlainFrom(t, k + 1))
  }

  /** No character of `t` is special: the pattern text stands for itself. */
  predicate IsPlain(t: string)
  {
    PlainFrom(t, 0)
  }

  const DigitGroup: string := "(\\d+)"
  const DigitRestGroups: string := "(\\d+)(.*)"

  lemma {:induction false} PlainFromIff(t: string, k: nat)
    requires k <= |t|
    ensures PlainFrom(t, k) <==> forall j :: k <= j < |t| ==> !IsMeta(t[j])
    decreases |t| - k
  {
    if k < |t| {
      PlainFromIff(t, k + 1);
    }
  }

  lemma IsPlainAppend(a: string, b: string)
    ensures IsPlain(a + b) <==> IsPlain(a) && IsPlain(b)
  {
    PlainFromIff(a + b, 0);
    PlainFromIff(a, 0);
    PlainFromIff(b, 0);
    if IsPlain(a) && IsPlain(b) {
      forall j | 0 <= j < |a + b| ensures !IsMeta((a + b)[j]) {
        if j >= |a| { assert (a + b)[j] == b[j - |a|]; }
      }
    }
    if IsPlain(a + b) {
      forall j | 0 <= j < |a| ensures !IsMeta(a[j]) {
        assert (a + b)[j] == a[j];
      }
      forall j | 0 <= j < |b| ensures !IsMeta(b[j]) {
        assert (a + b)[|a| + j] == b[j];
      }
    }
  }

  /** `t` is `prefix` followed by the text `group`. */
  predicate HasShape(t: string, group: string)
  {
    |group| <= |t| && t[|t| - |group|..] == group && IsPlain(t[..|t| - |group|])
  }

  lemma ShapeSplit(t: string, group: string)
    requires HasShape(t, group)
    ensures t == t[..|t| - |group|] + group
  {
  }

  /** The regular-expression text of a matcher. */
  function Source(m: Matcher): string
  {
    match m
    case Literal(p) => p
    case Digits(p) => p + DigitGroup
    case DigitsRest(p) => p + DigitRestGroups
  }

  /** `re.compile(text, re.M | re.S)` for the three shapes above; None for any
      other text. A compiled pattern is written, up to an optional leading `^`,
      by exactly the text it came from. */
  function Compile(text: string): (r: Option<Matcher>)
    ensures r.Some? ==> IsPlain(r.value.prefix)
    ensures r.Some? ==> text == Source(r.value) || text == "^" + Source(r.value)
  {
    var body := if text != [] && text[0] == '^' then text[1..] else text;
    assert text == body || text == "^" + body;
    if IsPlain(body) then
      Some(Literal(body))
    else if HasShape(body, DigitGroup) then
      ShapeSplit(body, DigitGroup);
      Some(Digits(body[..|body| - |DigitGroup|]))
    else if HasShape(body, DigitRestGroups) then
      ShapeSplit(body, DigitRestGroups);
      Some(DigitsRest(body[..|body| - |DigitRestGroups|]))
    else
      None
  }

  lemma CompileLiteral(p: string)
    requires IsPlain(p)
    ensures Compile(p) == Some(Literal(p))
    ensures Compile("^" + p) == Some(Literal(p))
  {
    assert ("^" + p)[1..] == p;
    assert p == [] || p[0] != '^';
  }

  lemma CompileDigits(p: string)
    requires IsPlain(p)
    ensures Compile(p + DigitGroup) == Some(Digits(p))
    ensures Compile("^" + p + DigitGroup) == Some(Digits(p))
  {
    var t := p + DigitGroup;
    assert ("^" + p + DigitGroup)[1..] == t;
    assert t[0] != '^' by {
      if p != [] { assert t[0] == p[0]; } else { assert t[0] == '('; }
    }
    assert !IsPlain(DigitGroup);
    IsPlainAppend(p, DigitGroup);
    assert t[..|t| - |DigitGroup|] == p;
  }

  /** The shape tests `Compile` applies to `p(\d+)(.*)`: the text is not
      plain, it does not end with `(\d+)`, and it has the two-group shape. */
  lemma DigitsRestShape(p: string)
    requires IsPlain(p)
    ensures var t := p + DigitRestGroups;
      && !IsPlain(t) && !HasShape(t, DigitGroup) && HasShape(t, DigitRestGroups)
      && t[..|t| - |DigitRestGroups|] == p
  {
    var t := p + DigitRestGroups;
    assert !IsPlain(DigitRestGroups);
    IsPlainAppend(p, DigitRestGroups);
    // `...(.*)` does not end with `(\d+)`
    assert t[|t| - |DigitGroup|..][0] == t[|t| - |DigitGroup|] == ')';
    assert t[..|t| - |DigitRestGroups|] == p;
  }

  lemma CompileDigitsRest(p: string)
    requires IsPlain(p)
    ensures Compile(p + DigitRestGroups) == Some(DigitsRest(p))
    ensures Compile("^" + p + DigitRestGroups) == Some(DigitsRest(p))
  {
    var t := p + DigitRestGroups;
    assert ("^" + p + DigitRestGroups)[1..] == t;
    assert t[0] != '^' by {
      if p != [] { assert t[0] == p[0]; } else { assert t[0] == '('; }
    }
    DigitsRestShape(p);
  }

  /** Compiling the text of a matcher whose prefix is plain gives that matcher
      back, with or without a leading `^`. */
  lemma CompileSource(m: Matcher)
    requires IsPlain(m.prefix)
    ensures Compile(Source(m)) == Some(m)
    ensures Compile("^" + Source(m)) == Some(m)
  {
    match m
    case Literal(p) => CompileLiteral(p);
    case Digits(p) => CompileDigits(p); assert "^" + Source(m) == "^" + p + DigitGroup;
    case DigitsRest(p) => CompileDigitsRest(p); assert "^" + Source(m) == "^" + p + DigitRestGroups;
  }
}
