/**
 * Character classes and small text utilities, with the meaning Python 2 gives
 * them on byte strings: `\s` and `str.split()` use the six ASCII whitespace
 * characters, `\d` is an ASCII digit, `\b` separates `[A-Za-z0-9_]` from the rest.
 */
module Text {

  predicate IsSpace(c: char) {
    c == ' ' || c == '\t' || c == '\n' || c == '\r' || c == '\U{0B}' || c == '\U{0C}'
  }

  predicate IsNonSpace(c: char) { !IsSpace(c) }

  predicate IsDigit(c: char) { '0' <= c <= '9' }

  predicate IsDigitOrDot(c: char) { IsDigit(c) || c == '.' }

  predicate IsSign(c: char) { c == '+' || c == '-' }

  predicate IsLetter(c: char) { 'a' <= c <= 'z' || 'A' <= c <= 'Z' }

  predicate IsWordChar(c: char) { IsLetter(c) || IsDigit(c) || c == '_' }

  /** ASCII upper case, the only case folding `(?i)` does on a byte string. */
  function Upper(c: char): char {
    if 'a' <= c <= 'z' then (c as int - 32) as char else c
  }

  /** End of the longest run of characters satisfying `p` that starts at `i`. */
  function SpanEnd(s: string, i: nat, p: char -> bool): (j: nat)
    requires i <= |s|
    ensures i <= j <= |s|
    ensures j == |s| || !p(s[j])
    decreases |s| - i
  {
    if i == |s| || !p(s[i]) then i else SpanEnd(s, i + 1, p)
  }

  /** Every character of the run satisfies `p`. */
  lemma {:induction false} SpanEndRun(s: string, i: nat, p: char -> bool)
    requires i <= |s|
    ensures forall k :: i <= k < SpanEnd(s, i, p) ==> p(s[k])
    decreases |s| - i
  {
    if i < |s| && p(s[i]) {
      SpanEndRun(s, i + 1, p);
    }
  }

  /** The run ends exactly at the first character that fails `p`. */
  lemma {:induction false} SpanEndIs(s: string, i: nat, j: nat, p: char -> bool)
    requires i <= j <= |s|
    requires forall k :: i <= k < j ==> p(s[k])
    requires j == |s| || !p(s[j])
    ensures SpanEnd(s, i, p) == j
    decreases j - i
  {
    if i < j {
      SpanEndIs(s, i + 1, j, p);
    }
  }

  lemma {:induction false} SliceOfSlice(s: string, p: nat, n: nat, a: nat, b: nat)
    requires p <= n <= |s| && a <= b <= n - p
    ensures s[p..n][a..b] == s[p + a..p + b]
  {
    assert |s[p..n][a..b]| == |s[p + a..p + b]|;
    forall k | 0 <= k < b - a ensures s[p..n][a..b][k] == s[p + a..p + b][k] { }
  }

  /** Index after an optional sign at `i`. */
  function SignEnd(s: string, i: nat): (j: nat)
    requires i <= |s|
    ensures j == i || (i < |s| && j == i + 1 && IsSign(s[i]))
    ensures j == i ==> i == |s| || !IsSign(s[i])
  {
    if i < |s| && IsSign(s[i]) then i + 1 else i
  }

  /** A token of `str.split()`: a non-empty run without whitespace. */
  predicate IsToken(t: string) {
    |t| > 0 && forall k :: 0 <= k < |t| ==> !IsSpace(t[k])
  }

  /** `str.split()` with no argument: the maximal runs of non-whitespace characters, in order. */
  function Split(s: string): seq<string>
    decreases |s|
  {
    if s == [] then []
    else if IsSpace(s[0]) then Split(s[1..])
    else
      var n := SpanEnd(s, 0, IsNonSpace);
      [s[..n]] + Split(s[n..])
  }

  /** Splitting a token followed by whitespace (or nothing) yields that token first. */
  lemma {:induction false} SplitToken(tok: string, rest: string)
    requires IsToken(tok)
    requires rest == [] || IsSpace(rest[0])
    ensures Split(tok + rest) == [tok] + Split(rest)
  {
    var s := tok + rest;
    SpanEndIs(s, 0, |tok|, IsNonSpace);
    assert s[..|tok|] == tok;
    assert s[|tok|..] == rest;
  }

  /** Leading whitespace is dropped by `str.split()`. */
  lemma {:induction false} SplitSpace(c: char, rest: string)
    requires IsSpace(c)
    ensures Split([c] + rest) == Split(rest)
  {
    assert ([c] + rest)[1..] == rest;
  }

  /** `[+-]?\d+` matching the whole text. */
  predicate IsIntText(t: string) {
    var a := SignEnd(t, 0);
    a < |t| && forall k :: a <= k < |t| ==> IsDigit(t[k])
  }

  function DigitValue(c: char): nat
    requires IsDigit(c)
  {
    c as int - '0' as int
  }

  function DigitChar(d: nat): char
    requires d < 10
  {
    (d + '0' as int) as char
  }

  /** Decimal value of a string of digits. */
  function DigitsValue(s: string): nat
    requires forall k :: 0 <= k < |s| ==> IsDigit(s[k])
    decreases |s|
  {
    if s == [] then 0 else DigitsValue(s[..|s| - 1]) * 10 + DigitValue(s[|s| - 1])
  }

  /** Python's `int()` on an optionally signed decimal literal. */
  function ParseInt(t: string): int
    requires IsIntText(t)
  {
    var a := SignEnd(t, 0);
    var n: int := DigitsValue(t[a..]);
    if a == 1 && t[0] == '-' then -n else n
  }

  /** Decimal digits of a natural number, without leading zeros. */
  function NatToString(n: nat): (s: string)
    ensures |s| > 0
    decreases n
  {
    if n < 10 then [DigitChar(n)] else NatToString(n / 10) + [DigitChar(n % 10)]
  }

  /** Python's `'{:d}'.format(n)`. */
  function IntToString(n: int): string {
    if n < 0 then "-" + NatToString(-n) else NatToString(n)
  }

  lemma {:induction false} NatToStringValue(n: nat)
    ensures var s := NatToString(n);
            (forall k :: 0 <= k < |s| ==> IsDigit(s[k])) && DigitsValue(s) == n
    decreases n
  {
    var s := NatToString(n);
    if n >= 10 {
      NatToStringValue(n / 10);
      assert s[..|s| - 1] == NatToString(n / 10);
    }
  }

  /** Rendering an integer and reading it back gives the integer. */
  lemma {:induction false} IntTextRoundTrip(n: int)
    ensures IsIntText(IntToString(n))
    ensures ParseInt(IntToString(n)) == n
  {
    var t := IntToString(n);
    if n < 0 {
      NatToStringValue(-n);
      assert t[1..] == NatToString(-n);
    } else {
      NatToStringValue(n);
      assert t[0..] == t;
    }
  }

  /** `'{:d}'` writes a sign and digits only. */
  lemma {:induction false} IntToStringDigits(n: int)
    ensures forall k :: 0 <= k < |IntToString(n)| ==> IsDigit(IntToString(n)[k]) || IntToString(n)[k] == '-'
  {
    if n < 0 {
      NatToStringValue(-n);
      assert forall k :: 1 <= k < |IntToString(n)| ==> IntToString(n)[k] == NatToString(-n)[k - 1];
    } else {
      NatToStringValue(n);
    }
  }

  /** Python's `s.replace('\n', '')`. */
  function StripNewlines(s: string): (r: string)
    ensures forall k :: 0 <= k < |r| ==> r[k] != '\n'
    ensures forall c :: c != '\n' ==> (c in r <==> c in s)
    ensures |s| > 0 && s[0] != '\n' ==> |r| > 0 && r[0] == s[0]
    decreases |s|
  {
    if s == [] then []
    else if s[0] == '\n' then StripNewlines(s[1..])
    else [s[0]] + StripNewlines(s[1..])
  }

  /** One character: a newline is dropped, any other character is kept. */
  lemma {:induction false} StripNewlinesChar(c: char)
    ensures StripNewlines([c]) == if c == '\n' then [] else [c]
  {
    assert [c][1..] == [];
  }

  /** Stripping a concatenation strips each part in turn, so the kept
      characters stay in their order and keep their number. */
  lemma {:induction false} StripNewlinesAppend(a: string, b: string)
    ensures StripNewlines(a + b) == StripNewlines(a) + StripNewlines(b)
    decreases |a|
  {
    if a == [] {
      assert a + b == b;
    } else {
      assert (a + b)[0] == a[0] && (a + b)[1..] == a[1..] + b;
      StripNewlinesAppend(a[1..], b);
    }
  }

  /** A text without newlines is left as it is. */
  lemma {:induction false} NoNewlineStripped(s: string)
    requires '\n' !in s
    ensures StripNewlines(s) == s
    decreases |s|
  {
    if s != [] {
      assert '\n' !in s[1..];
      NoNewlineStripped(s[1..]);
      assert [s[0]] + s[1..] == s;
    }
  }

  /** Python's `s.find(c)`: the first index of `c`, or -1. */
  function Find(s: string, c: char): (k: int)
    ensures -1 <= k < |s|
    ensures k >= 0 ==> s[k] == c && forall j :: 0 <= j < k ==> s[j] != c
    ensures k == -1 ==> c !in s
    decreases |s|
  {
    if s == [] then -1
    else if s[0] == c then 0
    else var k := Find(s[1..], c); if k == -1 then -1 else k + 1
  }

  /** Python's slice `s[k:]` for a possibly negative `k`. */
  function PySuffix(s: string, k: int): string
    requires k < |s|
  {
    if k >= 0 then s[k..]
    else if k + |s| >= 0 then s[k + |s|..]
    else s
  }
}
