/**
 * The token classifier `LHA.entrytype` and the conversion the parse loop applies
 * to each classified token. The four regular expressions are written as
 * character predicates: each predicate holds exactly when Python's
 * `re.findall` with that pattern returns a non-empty list.
 */
module Tokens {
  import opened Wrappers
  import opened Text
  import opened Matching

  datatype TokenKind = IntTok | FloatTok | StringTok | CommentTok | UnknownTok

  /** `^([+\-]?\d+)(?![\d^\D])`: the lookahead class holds every character, so
      the optionally signed digits must make up the whole token. */
  predicate MatchesInt(t: string) {
    IsIntText(t)
  }

  /** A match of `[+-]?\d+\.\d+([eEdD][+-]\d+)?(?!\.)` exists with its decimal
      point at `d`: a digit before it, a digit after it, and, when the digits
      after the point are a single one, no second point right behind it.
      The optional sign and exponent never decide whether some match exists. */
  predicate FloatAt(t: string, d: nat) {
    && 1 <= d && d + 1 < |t|
    && IsDigit(t[d - 1]) && t[d] == '.' && IsDigit(t[d + 1])
    && !(d + 2 < |t| && t[d + 2] == '.')
  }

  /** The unanchored FLOAT pattern finds a match somewhere in the token. */
  predicate MatchesFloat(t: string) {
    exists d :: 0 <= d < |t| && FloatAt(t, d)
  }

  /** The unanchored `([a-zA-Z]\S*)` matches iff the token holds an ASCII letter. */
  predicate MatchesString(t: string) {
    exists k :: 0 <= k < |t| && IsLetter(t[k])
  }

  /** The unanchored `(?:\#.*)` matches iff the token holds a `#`. */
  predicate MatchesComment(t: string) {
    exists k :: 0 <= k < |t| && t[k] == '#'
  }

  predicate Matches(t: string, k: TokenKind) {
    match k
    case IntTok => MatchesInt(t)
    case FloatTok => MatchesFloat(t)
    case StringTok => MatchesString(t)
    case CommentTok => MatchesComment(t)
    case UnknownTok => false
  }

  /** `entrytype` with the precedence COMMENT > FLOAT > INT > STRING fixed in
      place of the dictionary's iteration order; UNKNOWN when nothing matches. */
  function EntryType(t: string): (k: TokenKind)
    ensures k != UnknownTok ==> Matches(t, k)
    ensures k == UnknownTok ==> forall j :: !Matches(t, j)
  {
    if MatchesComment(t) then CommentTok
    else if MatchesFloat(t) then FloatTok
    else if MatchesInt(t) then IntTok
    else if MatchesString(t) then StringTok
    else UnknownTok
  }

  /** Where patterns overlap, COMMENT wins over FLOAT, FLOAT over INT, and INT
      over STRING: each tag is returned exactly when its pattern matches and no
      stronger one does. */
  lemma {:induction false} EntryTypePrecedence(t: string)
    ensures EntryType(t) == CommentTok <==> MatchesComment(t)
    ensures EntryType(t) == FloatTok <==> MatchesFloat(t) && !MatchesComment(t)
    ensures EntryType(t) == IntTok <==> MatchesInt(t) && !MatchesComment(t) && !MatchesFloat(t)
    ensures EntryType(t) == StringTok <==>
              MatchesString(t) && !MatchesComment(t) && !MatchesFloat(t) && !MatchesInt(t)
  {
  }

  /** An optionally signed run of digits matches no other pattern. */
  lemma {:induction false} IntMatchesAlone(t: string)
    requires IsIntText(t)
    ensures !MatchesFloat(t) && !MatchesString(t) && !MatchesComment(t)
  {
    var a := SignEnd(t, 0);
    forall k | 0 <= k < |t| ensures IsSign(t[k]) || IsDigit(t[k]) {
      if k < a { assert k == 0; }
    }
  }

  /** A token is INT exactly when the whole token is an optional sign followed by digits. */
  lemma {:induction false} IntTokenExact(t: string)
    ensures EntryType(t) == IntTok <==> IsIntText(t)
  {
    if IsIntText(t) {
      IntMatchesAlone(t);
    }
  }

  /** Whenever at most one pattern matches, the source's loop gives the same tag
      as the fixed precedence, whatever order the dictionary iterates in. */
  lemma {:induction false} EntryTypeAnyOrder(t: string, order: seq<TokenKind>)
    requires IntTok in order && FloatTok in order && StringTok in order && CommentTok in order
    requires forall j1, j2 :: Matches(t, j1) && Matches(t, j2) ==> j1 == j2
    ensures LastMatch(order, j => Matches(t, j), UnknownTok) == EntryType(t)
  {
    var k := EntryType(t);
    if k == UnknownTok {
      LastMatchNone(order, j => Matches(t, j), UnknownTok);
    } else {
      LastMatchUnique(order, j => Matches(t, j), UnknownTok, k);
    }
  }

  /** The patterns overlap: a float written with an exponent also matches STRING,
      so the loop's answer depends on the iteration order. CPython 2.7 iterates
      so that STRING comes last (`CPythonEntryOrder`) and picks STRING; the
      precedence picks FLOAT. */
  lemma {:induction false} FloatStringOverlap()
    ensures MatchesFloat("1.23456789E+02") && MatchesString("1.23456789E+02")
    ensures LastMatch([FloatTok, StringTok], j => Matches("1.23456789E+02", j), UnknownTok) == StringTok
    ensures LastMatch([StringTok, FloatTok], j => Matches("1.23456789E+02", j), UnknownTok) == FloatTok
    ensures EntryType("1.23456789E+02") == FloatTok
  {
    var t := "1.23456789E+02";
    assert FloatAt(t, 1);
    assert IsLetter(t[10]);
    assert !MatchesComment(t) by {
      forall k | 0 <= k < |t| ensures t[k] != '#' { }
    }
  }

  /** The order in which CPython 2.7, without hash randomization, iterates the
      four keys of the `type_regexes` dictionary: it follows from the string
      hashes of the keys and the slots of an eight-slot table. */
  const CPythonEntryOrder: seq<TokenKind> := [IntTok, CommentTok, FloatTok, StringTok]

  /** In that order the last-match loop ranks STRING over FLOAT over COMMENT:
      an exponent float is read as a string, a `#` token with a letter is a
      string value that does not end the scan, and a float followed by `#` is
      FLOAT, which `float()` then refuses. The precedence reads the first as a
      float and the other two as comments. */
  lemma {:induction false} EntryTypeCPythonOrder()
    ensures LastMatch(CPythonEntryOrder, j => Matches("1.25000000E+02", j), UnknownTok) == StringTok
    ensures EntryType("1.25000000E+02") == FloatTok
    ensures LastMatch(CPythonEntryOrder, j => Matches("#mass", j), UnknownTok) == StringTok
    ensures EntryType("#mass") == CommentTok
    ensures LastMatch(CPythonEntryOrder, j => Matches("1.5#", j), UnknownTok) == FloatTok
    ensures !IsPyFloat("1.5#")
    ensures EntryType("1.5#") == CommentTok
  {
    var f := "1.25000000E+02";
    assert FloatAt(f, 1);
    assert IsLetter(f[10]);
    assert !MatchesComment(f) by {
      forall k | 0 <= k < |f| ensures f[k] != '#' { }
    }
    var m := "#mass";
    assert IsLetter(m[1]) && m[0] == '#';
    var h := "1.5#";
    assert FloatAt(h, 1) && h[3] == '#';
    assert !MatchesString(h) by {
      forall k | 0 <= k < |h| ensures !IsLetter(h[k]) { }
    }
    assert SpanEnd(h, 0, IsDigit) == 1 && SpanEnd(h, 2, IsDigit) == 3;
  }

  /** Python 2.7 `float()` on text without whitespace: the decimal grammar
      `[+-]?(\d+(\.\d*)?|\.\d+)([eE][+-]?\d+)?`. The spellings inf and nan hold
      no digit, so no FLOAT token and no decay width is one of them. */
  predicate IsPyFloat(t: string) {
    var a := SignEnd(t, 0);
    var b := SpanEnd(t, a, IsDigit);
    var dot := b < |t| && t[b] == '.';
    var c := if dot then SpanEnd(t, b + 1, IsDigit) else b;
    && (b > a || c > b + 1)
    && (c == |t| || ((t[c] == 'e' || t[c] == 'E') && ExponentTail(t, c + 1)))
  }

  /** `[+-]?\d+` from `i` to the end of the text. */
  predicate ExponentTail(t: string, i: nat)
    requires i <= |t|
  {
    var j := SignEnd(t, i);
    j < |t| && SpanEnd(t, j, IsDigit) == |t|
  }

  /** A text `float()` accepts holds a digit and is made of signs, digits,
      points and exponent marks only: no whitespace, no `#`, and neither
      `inf` nor `nan`. */
  lemma {:induction false} PyFloatChars(t: string)
    requires IsPyFloat(t)
    ensures exists k :: 0 <= k < |t| && IsDigit(t[k])
    ensures forall k :: 0 <= k < |t| ==> IsDigit(t[k]) || IsSign(t[k]) || t[k] == '.' || t[k] == 'e' || t[k] == 'E'
  {
    var a := SignEnd(t, 0);
    var b := SpanEnd(t, a, IsDigit);
    SpanEndRun(t, a, IsDigit);
    var dot := b < |t| && t[b] == '.';
    var c := if dot then SpanEnd(t, b + 1, IsDigit) else b;
    if dot {
      SpanEndRun(t, b + 1, IsDigit);
    }
    if b > a {
      assert IsDigit(t[a]);
    } else {
      assert IsDigit(t[b + 1]);
    }
    if c < |t| {
      var j := SignEnd(t, c + 1);
      SpanEndRun(t, j, IsDigit);
      forall k | c < k < |t| ensures IsDigit(t[k]) || IsSign(t[k]) {
        if k >= j {
          assert IsDigit(t[k]);
        }
      }
    }
  }

  /** A value of an entry: Python int, float or str. A float is kept as the
      text it was converted from; no arithmetic is done on it. */
  datatype Value = Int(i: int) | Flt(text: string) | Str(s: string)

  /** What the entry loop appends for a token (lhatool.py:122-130): FLOAT goes
      through float(), falling back to the text when that raises; INT through
      int(); STRING stays text. COMMENT and UNKNOWN tokens append nothing. */
  function TokenValue(t: string): (v: Option<Value>)
    ensures v.Some? <==> EntryType(t) in {FloatTok, IntTok, StringTok}
  {
    match EntryType(t)
    case FloatTok => Some(if IsPyFloat(t) then Flt(t) else Str(t))
    case IntTok => Some(Int(ParseInt(t)))
    case StringTok => Some(Str(t))
    case _ => None
  }

  /** One value as `Entry.__str__` writes it, without the leading tab: `{:d}`
      for an int, the float's own text in place of `{:.8e}`, `{}` for a str. */
  function RenderValue(v: Value): string {
    match v
    case Int(n) => IntToString(n)
    case Flt(t) => t
    case Str(s) => s
  }

  /** A value that is written as a single token which the parser reads back as the same value. */
  predicate Canonical(v: Value) {
    var t := RenderValue(v);
    IsToken(t) && EntryType(t) != CommentTok && TokenValue(t) == Some(v)
  }

  /** Every integer survives writing and re-reading. */
  lemma {:induction false} IntCanonical(n: int)
    ensures Canonical(Int(n))
  {
    var t := IntToString(n);
    IntTextRoundTrip(n);
    IntTokenExact(t);
    assert forall k :: 0 <= k < |t| ==> IsSign(t[k]) || IsDigit(t[k]) by {
      forall k | 0 <= k < |t| ensures IsSign(t[k]) || IsDigit(t[k]) {
        if k < SignEnd(t, 0) { assert k == 0; }
      }
    }
  }

  /** Every value the parser produces from a token is canonical. */
  lemma {:induction false} ParsedValueCanonical(t: string)
    requires IsToken(t) && TokenValue(t).Some?
    ensures Canonical(TokenValue(t).value)
  {
    var v := TokenValue(t).value;
    if v.Int? {
      IntCanonical(v.i);
    }
  }
}
