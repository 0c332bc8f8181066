/**
 * The operations on Python `str` values that the bots' decisions depend on:
 * `strip()`, `lower()` on ASCII letters, `t in s`, `startswith`, `endswith`,
 * `int(s)` on a decimal string, and `str(n)` / `f"{n:02d}"` of a natural number.
 */
module Text {
  import opened Wrappers

  /** Python's `str.isspace()` for one code point: the characters `str.strip()` removes. */
  predicate IsSpace(c: char) {
    c == ' ' || '\t' <= c <= '\r' || '\U{1C}' <= c <= '\U{1F}' || c == '\U{85}' || c == '\U{A0}'
    || c == '\U{1680}' || '\U{2000}' <= c <= '\U{200A}' || c == '\U{2028}' || c == '\U{2029}'
    || c == '\U{202F}' || c == '\U{205F}' || c == '\U{3000}'
  }

  predicate AllSpace(s: string) {
    forall i :: 0 <= i < |s| ==> IsSpace(s[i])
  }

  /** How many whitespace characters `s` begins with. */
  function LeadingSpaces(s: string): (n: nat)
    ensures n <= |s|
    ensures forall i :: 0 <= i < n ==> IsSpace(s[i])
    ensures n == |s| || !IsSpace(s[n])
  {
    if |s| > 0 && IsSpace(s[0]) then
      var k := LeadingSpaces(s[1..]);
      assert forall i :: 1 <= i <= k ==> s[i] == s[1..][i - 1];
      k + 1
    else 0
  }

  /** How many whitespace characters `s` ends with. */
  function TrailingSpaces(s: string): (n: nat)
    ensures n <= |s|
    ensures forall i :: |s| - n <= i < |s| ==> IsSpace(s[i])
    ensures n == |s| || !IsSpace(s[|s| - n - 1])
  {
    if |s| > 0 && IsSpace(s[|s| - 1]) then
      var k := TrailingSpaces(s[..|s| - 1]);
      assert forall i :: |s| - 1 - k <= i < |s| - 1 ==> s[i] == s[..|s| - 1][i];
      k + 1
    else 0
  }

  /** `s.lstrip()`: a suffix of `s` that begins with a non-space, after a run of whitespace. */
  function TrimStart(s: string): (r: string)
    ensures |r| <= |s| && r == s[|s| - |r|..]
    ensures r == [] || !IsSpace(r[0])
    ensures AllSpace(s[..|s| - |r|])
  {
    s[LeadingSpaces(s)..]
  }

  /** `s.rstrip()`: a prefix of `s` that ends with a non-space, before a run of whitespace. */
  function TrimEnd(s: string): (r: string)
    ensures |r| <= |s| && r == s[..|r|]
    ensures r == [] || !IsSpace(r[|r| - 1])
    ensures AllSpace(s[|r|..])
  {
    s[..|s| - TrailingSpaces(s)]
  }

  /** `s.strip()`: the part of `s` between its leading and its trailing whitespace. */
  function Strip(s: string): (r: string)
    ensures r == [] || (!IsSpace(r[0]) && !IsSpace(r[|r| - 1]))
    ensures |r| <= |s|
  {
    TrimEnd(TrimStart(s))
  }

  lemma TrimStartKeeps(s: string)
    requires s == [] || !IsSpace(s[0])
    ensures TrimStart(s) == s
  {
  }

  lemma TrimEndKeeps(s: string)
    requires s == [] || !IsSpace(s[|s| - 1])
    ensures TrimEnd(s) == s
  {
  }

  /** A string is left unchanged by `strip()` exactly when neither end is whitespace. */
  lemma StripFixpoint(s: string)
    ensures Strip(s) == s <==> (s == [] || (!IsSpace(s[0]) && !IsSpace(s[|s| - 1])))
  {
    if s == [] || (!IsSpace(s[0]) && !IsSpace(s[|s| - 1])) {
      TrimStartKeeps(s);
      TrimEndKeeps(s);
    }
  }

  /** `strip()` is idempotent. */
  lemma StripIdempotent(s: string)
    ensures Strip(Strip(s)) == Strip(s)
  {
    StripFixpoint(Strip(s));
  }

  /** `s.strip()` is a slice of `s` with only whitespace cut off either end. */
  lemma StripIsSlice(s: string)
    ensures exists i, j :: 0 <= i <= j <= |s| && Strip(s) == s[i..j] && AllSpace(s[..i]) && AllSpace(s[j..])
  {
    var t := TrimStart(s);
    var i := |s| - |t|;
    var j := i + |Strip(s)|;
    assert t == s[i..];
    assert Strip(s) == t[..|Strip(s)|] == s[i..j];
    assert t[|Strip(s)|..] == s[j..];
  }

  /** `not s.strip()` holds exactly when every character of `s` is whitespace. */
  lemma StripEmptyIff(s: string)
    ensures Strip(s) == [] <==> AllSpace(s)
  {
    var t := TrimStart(s);
    if Strip(s) == [] {
      assert AllSpace(t[0..]);
      assert s[..|s|] == s;
    }
  }

  /** Trailing whitespace (a line's `\n`, say) disappears under `rstrip()`. */
  lemma TrimEndSpaces(t: string, w: string)
    requires t == [] || !IsSpace(t[|t| - 1])
    requires AllSpace(w)
    ensures TrimEnd(t + w) == t
  {
    var s := t + w;
    assert t != [] ==> s[|t| - 1] == t[|t| - 1];
    assert forall j :: 0 <= j < |w| ==> s[|t| + j] == w[j];
    assert TrailingSpaces(s) == |w|;
    assert s[..|t|] == t;
  }

  /** A string with non-space ends, followed by whitespace, strips back to itself. */
  lemma StripAppendSpaces(t: string, w: string)
    requires t != [] && !IsSpace(t[0]) && !IsSpace(t[|t| - 1])
    requires AllSpace(w)
    ensures Strip(t + w) == t
  {
    assert (t + w)[0] == t[0];
    assert TrimStart(t + w) == t + w;
    TrimEndSpaces(t, w);
  }

  /** `strip()` removes no character that is not whitespace. */
  lemma StripKeeps(s: string, c: char)
    requires !IsSpace(c)
    ensures c in Strip(s) <==> c in s
  {
    var t := TrimStart(s);
    var lead := s[..|s| - |t|];
    assert s == lead + t;
    assert c !in lead by {
      assert forall j :: 0 <= j < |lead| ==> IsSpace(lead[j]);
    }
    var r := TrimEnd(t);
    var trail := t[|r|..];
    assert t == r + trail;
    assert c !in trail by {
      assert forall j :: 0 <= j < |trail| ==> IsSpace(trail[j]);
    }
  }

  /** A string with non-space ends, wrapped in whitespace, strips back to itself. */
  lemma StripSurrounded(v: string, t: string, w: string)
    requires AllSpace(v) && AllSpace(w)
    requires t != [] && !IsSpace(t[0]) && !IsSpace(t[|t| - 1])
    ensures Strip(v + t + w) == t
  {
    var s := v + t + w;
    assert s[|v|] == t[0];
    assert forall j :: 0 <= j < |v| ==> s[j] == v[j];
    assert LeadingSpaces(s) == |v|;
    assert TrimStart(s) == t + w;
    TrimEndSpaces(t, w);
  }

  /** Python's `str.lower()` on one character, restricted to ASCII letters. */
  function LowerChar(c: char): char {
    if 'A' <= c <= 'Z' then (c as int + 32) as char else c
  }

  function Lower(s: string): (r: string)
    ensures |r| == |s| && forall i :: 0 <= i < |s| ==> r[i] == LowerChar(s[i])
  {
    if s == [] then [] else [LowerChar(s[0])] + Lower(s[1..])
  }

  /** Lower-casing twice is lower-casing once. */
  lemma LowerIdempotent(s: string)
    ensures Lower(Lower(s)) == Lower(s)
  {
    assert forall i :: 0 <= i < |s| ==> LowerChar(LowerChar(s[i])) == LowerChar(s[i]);
  }

  predicate StartsWith(s: string, prefix: string) {
    |prefix| <= |s| && s[..|prefix|] == prefix
  }

  predicate EndsWith(s: string, suffix: string) {
    |suffix| <= |s| && s[|s| - |suffix|..] == suffix
  }

  /** `c * n` for a one-character string `c`. */
  function Repeat(c: char, n: nat): (r: string)
    ensures |r| == n && forall i :: 0 <= i < n ==> r[i] == c
  {
    if n == 0 then [] else [c] + Repeat(c, n - 1)
  }

  /** Whether a string begins with a given character. */
  lemma StartsWithChar(s: string, c: char)
    ensures StartsWith(s, [c]) <==> |s| > 0 && s[0] == c
  {
    if |s| > 0 {
      assert s[..1] == [s[0]];
    }
  }

  /** A string begins with its first part. */
  lemma StartsWithAppend(a: string, b: string)
    ensures StartsWith(a + b, a)
  {
    assert (a + b)[..|a|] == a;
  }

  /** A prefix of a prefix is a prefix. */
  lemma StartsWithTransitive(s: string, f: string, g: string)
    requires StartsWith(s, f) && StartsWith(f, g)
    ensures StartsWith(s, g)
  {
    assert s[..|g|] == s[..|f|][..|g|];
  }

  /** `a + x + b` begins with `a`, holds `x` right after it and ends with `b`,
    * so cutting `a` and `b` off its ends gives back `x`. */
  lemma Framed(a: string, x: string, b: string)
    ensures StartsWith(a + x + b, a) && EndsWith(a + x + b, b)
    ensures (a + x + b)[|a|..|a| + |x|] == x
    ensures (a + x + b)[|a|..|a + x + b| - |b|] == x
  {
    assert (a + x + b)[..|a|] == a;
    assert (a + x + b)[|a + x + b| - |b|..] == b;
  }

  /** A string ends with its last part. */
  lemma EndsWithAppend(a: string, b: string)
    ensures EndsWith(a + b, b)
  {
    assert (a + b)[|a + b| - |b|..] == b;
  }

  /** A suffix of a suffix is a suffix. */
  lemma EndsWithTransitive(s: string, f: string, g: string)
    requires EndsWith(s, f) && EndsWith(f, g)
    ensures EndsWith(s, g)
  {
    assert s[|s| - |g|..] == s[|s| - |f|..][|f| - |g|..];
  }

  /** Python's `t in s` for two strings. */
  predicate Contains(s: string, t: string) {
    StartsWith(s, t) || (|s| > 0 && Contains(s[1..], t))
  }

  /** `t in s` holds as soon as `t` occurs at some offset of `s`. */
  lemma {:induction false} ContainsAt(s: string, t: string, i: nat)
    requires i + |t| <= |s| && s[i..i + |t|] == t
    ensures Contains(s, t)
    decreases i
  {
    if i > 0 {
      assert s[1..][i - 1..i - 1 + |t|] == s[i..i + |t|];
      ContainsAt(s[1..], t, i - 1);
    }
  }

  /** A string with no upper-case ASCII letter is its own lower-case form. */
  lemma LowerKeepsLowercase(t: string)
    requires forall i :: 0 <= i < |t| ==> !('A' <= t[i] <= 'Z')
    ensures Lower(t) == t
  {
  }

  /** Lower-casing keeps every occurrence: `t in s` gives `t.lower() in s.lower()`. */
  lemma {:induction false} ContainsLower(s: string, t: string)
    ensures Contains(s, t) ==> Contains(Lower(s), Lower(t))
    decreases |s|
  {
    if StartsWith(s, t) {
      assert Lower(s)[..|t|] == Lower(t);
    } else if |s| > 0 && Contains(s[1..], t) {
      ContainsLower(s[1..], t);
      assert Lower(s)[1..] == Lower(s[1..]);
    }
  }

  /** A string contains every one of its infixes. */
  lemma ContainsInfix(a: string, t: string, b: string)
    ensures Contains(a + t + b, t)
  {
    assert (a + t + b)[|a|..|a| + |t|] == t;
    ContainsAt(a + t + b, t, |a|);
  }

  /** Whatever a suffix of `s` contains, `s` contains. */
  lemma {:induction false} ContainsSuffix(s: string, f: string, t: string)
    requires EndsWith(s, f) && Contains(f, t)
    ensures Contains(s, t)
    decreases |s|
  {
    if |s| == |f| {
      assert s == s[|s| - |f|..];
    } else {
      assert s[1..][|s| - 1 - |f|..] == s[|s| - |f|..];
      ContainsSuffix(s[1..], f, t);
    }
  }

  predicate IsDigit(c: char) {
    '0' <= c <= '9'
  }

  predicate AllDigits(s: string) {
    forall i :: 0 <= i < |s| ==> IsDigit(s[i])
  }

  function DigitValue(c: char): nat
    requires IsDigit(c)
  {
    c as int - '0' as int
  }

  function DigitChar(d: nat): (c: char)
    requires d < 10
    ensures IsDigit(c) && DigitValue(c) == d
  {
    ('0' as int + d) as char
  }

  /** The number a string of decimal digits denotes. */
  function Value(s: string): nat
    requires AllDigits(s)
  {
    if s == [] then 0 else Value(s[..|s| - 1]) * 10 + DigitValue(s[|s| - 1])
  }

  /** `str(n)`: the shortest decimal numeral of `n`, which denotes `n`. */
  function NatToString(n: nat): (r: string)
    ensures r != [] && AllDigits(r) && Value(r) == n
    ensures |r| == 1 <==> n < 10
    ensures |r| == 2 <==> 10 <= n < 100
  {
    if n < 10 then [DigitChar(n)]
    else
      var r := NatToString(n / 10) + [DigitChar(n % 10)];
      assert r[..|r| - 1] == NatToString(n / 10);
      r
  }

  /** `f"{n:02d}"`: `n` in decimal, zero-padded to two digits. */
  function Pad2(n: nat): (r: string)
    ensures AllDigits(r) && Value(r) == n
    ensures n < 100 ==> |r| == 2
  {
    if n < 10 then
      var r := ['0', DigitChar(n)];
      assert r[..1] == ['0'] && ['0'][..0] == [];
      r
    else NatToString(n)
  }

  /** Python's `int(s)`: surrounding whitespace, an optional sign, then one or more
    * ASCII digits; `None` where `int` raises ValueError. */
  function ParseInt(s: string): Option<int> {
    var t := Strip(s);
    if t == [] then None
    else
      var digits := if t[0] == '-' || t[0] == '+' then t[1..] else t;
      if digits != [] && AllDigits(digits) then
        var v: int := Value(digits);
        Some(if t[0] == '-' then -v else v)
      else None
  }

  /** `int(str(n) + w) == n` for trailing whitespace `w`, such as the newline
    * a shell `echo` writes after a PID. */
  lemma ParseIntRoundTrip(n: nat, w: string)
    requires AllSpace(w)
    ensures ParseInt(NatToString(n) + w) == Some(n)
  {
    var d := NatToString(n);
    assert IsDigit(d[0]) && IsDigit(d[|d| - 1]);
    StripAppendSpaces(d, w);
    ParseIntOfDigits(d + w, d);
  }

  /** A string that strips to a run of digits converts to the number they denote. */
  lemma ParseIntOfDigits(s: string, d: string)
    requires Strip(s) == d && d != [] && AllDigits(d)
    ensures ParseInt(s) == Some(Value(d))
  {
    assert IsDigit(d[0]);
  }

  /** A numeral written out in the program text converts to its number. */
  lemma NumeralParses(n: nat, s: string)
    requires s == NatToString(n)
    ensures ParseInt(s) == Some(n)
  {
    ParseIntRoundTrip(n, "");
    assert s + "" == s;
  }
}
