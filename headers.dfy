/**
 * The fields `process_input` extracts from a header line with `re.search`:
 * the block name, the header comment, and the particle id and width of a
 * decay. Each search is written as the scan the regular-expression engine
 * performs: start positions left to right, and at each start the
 * alternatives in the order backtracking tries them.
 */
module Headers {
  import opened Wrappers
  import opened Text
  import opened Tokens
  import opened Lines

  /** `re.search(r'(?i)(?<=block)\s*(\S*)', line).group(1)` on a BLOCK line. The
      lookbehind first holds at column 5, right after the keyword; there the
      whitespace is skipped and the following non-whitespace run is the name,
      possibly empty. The search therefore never fails. */
  function BlockName(l: string): (name: string)
    requires KeywordAtStart(l, "BLOCK")
    ensures forall k :: 0 <= k < |name| ==> !IsSpace(name[k])
    ensures exists j: nat, e: nat :: BlockNameSpan(l, j, e) && name == l[j..e]
  {
    var j := SpanEnd(l, 5, IsSpace);
    var e := SpanEnd(l, j, IsNonSpace);
    SpanEndRun(l, 5, IsSpace);
    SpanEndRun(l, j, IsNonSpace);
    assert BlockNameSpan(l, j, e);
    l[j..e]
  }

  /** `l[j..e]` is what `\s*(\S*)` captures right after the keyword: the
      whitespace from column 5 ends at `j`, and the non-whitespace run from
      `j` ends at `e`. */
  predicate BlockNameSpan(l: string, j: nat, e: nat) {
    && 5 <= j <= e <= |l|
    && (forall k :: 5 <= k < j ==> IsSpace(l[k]))
    && (j == |l| || !IsSpace(l[j]))
    && (forall k :: j <= k < e ==> !IsSpace(l[k]))
    && (e == |l| || IsSpace(l[e]))
  }

  predicate IsNotNewline(c: char) { c != '\n' }

  /** `re.search(r'(?i)(?<=\#)\s(.*)', line).group()`: at the first whitespace
      character that directly follows a `#`, that character and the rest of the
      line up to a newline. The whole match is taken, so the comment keeps the
      whitespace character after `#`. None when no `#` is followed by whitespace. */
  function HeaderComment(l: string): (r: Option<string>)
    ensures r.None? <==> forall k :: 1 <= k < |l| ==> !(l[k - 1] == '#' && IsSpace(l[k]))
    ensures r.Some? ==> |r.value| >= 1 && IsSpace(r.value[0]) && '\n' !in r.value[1..]
  {
    CommentFromNone(l, 1);
    CommentFrom(l, 1)
  }

  /** `q` is the first position from `p` on where whitespace follows a `#`,
      and `l[q..e]` is the match of `\s(.*)` there: that whitespace character
      and the rest of the line up to the next newline. */
  predicate CommentSpan(l: string, p: nat, q: nat, e: nat) {
    && 1 <= p <= q < e <= |l|
    && l[q - 1] == '#' && IsSpace(l[q])
    && (forall k :: p <= k < q ==> !(l[k - 1] == '#' && IsSpace(l[k])))
    && (forall k :: q < k < e ==> l[k] != '\n')
    && (e == |l| || l[e] == '\n')
  }

  function CommentFrom(l: string, p: nat): (r: Option<string>)
    requires 1 <= p
    ensures r.Some? ==> |r.value| >= 1 && IsSpace(r.value[0])
    ensures r.Some? ==> forall k :: 1 <= k < |r.value| ==> r.value[k] != '\n'
    decreases |l| - p
  {
    if p >= |l| then None
    else if l[p - 1] == '#' && IsSpace(l[p]) then
      SpanEndRun(l, p + 1, IsNotNewline);
      Some(l[p..SpanEnd(l, p + 1, IsNotNewline)])
    else CommentFrom(l, p + 1)
  }

  /** A comment found from `p` on is the match at the first `#` followed by
      whitespace: that whitespace character and the rest of its line. */
  lemma {:induction false} CommentFromSpan(l: string, p: nat)
    requires 1 <= p
    ensures CommentFrom(l, p).Some? ==>
              exists q: nat, e: nat :: CommentSpan(l, p, q, e) && CommentFrom(l, p).value == l[q..e]
    decreases |l| - p
  {
    if p < |l| {
      if l[p - 1] == '#' && IsSpace(l[p]) {
        var e := SpanEnd(l, p + 1, IsNotNewline);
        SpanEndRun(l, p + 1, IsNotNewline);
        assert CommentSpan(l, p, p, e);
      } else {
        CommentFromSpan(l, p + 1);
        if CommentFrom(l, p + 1).Some? {
          var q: nat, e: nat :| CommentSpan(l, p + 1, q, e) && CommentFrom(l, p + 1).value == l[q..e];
          assert CommentSpan(l, p, q, e);
        }
      }
    }
  }

  /** A header comment is the whitespace after the first `#` that has
      whitespace after it, and the rest of that line. */
  lemma {:induction false} HeaderCommentSpan(l: string)
    ensures HeaderComment(l).Some? ==>
              exists q: nat, e: nat :: CommentSpan(l, 1, q, e) && HeaderComment(l).value == l[q..e]
  {
    CommentFromSpan(l, 1);
  }

  /** A header has a comment exactly when some `#` in it is followed by whitespace. */
  lemma {:induction false} CommentFromNone(l: string, p: nat)
    requires 1 <= p
    ensures CommentFrom(l, p).None? <==>
            forall k :: p <= k < |l| ==> !(l[k - 1] == '#' && IsSpace(l[k]))
    decreases |l| - p
  {
    if p < |l| && !(l[p - 1] == '#' && IsSpace(l[p])) {
      CommentFromNone(l, p + 1);
    }
  }

  /** Positions whose preceding character is not `#` are passed over. */
  lemma {:induction false} CommentFromSkip(l: string, p: nat, r: nat)
    requires 1 <= p <= r <= |l|
    requires forall k :: p - 1 <= k < r - 1 ==> l[k] != '#'
    ensures CommentFrom(l, p) == CommentFrom(l, r)
    decreases r - p
  {
    if p < r {
      CommentFromSkip(l, p + 1, r);
    }
  }

  /** `l[a..b]` matches the mantissa `\d?\.?\d*` of a width: digits and at
      most one point, the point (if any) first or second. */
  predicate MantissaIn(l: string, a: nat, b: nat)
    requires a <= b <= |l|
  {
    && (forall k :: a <= k < b ==> IsDigitOrDot(l[k]))
    && (forall k :: a <= k < b && l[k] == '.' ==> k <= a + 1)
    && !(b - a >= 2 && l[a] == '.' && l[a + 1] == '.')
  }

  /** `l[p..n]` matches `[+\-]?\d?\.?\d*[Ee][+\-]?\d+`, the width of a decay,
      with its exponent mark at `m`. */
  predicate WidthWithMarkIn(l: string, p: nat, m: nat, n: nat)
    requires p <= n <= |l|
  {
    var q := if p < n && IsSign(l[p]) then p + 1 else p;
    var r := if m + 1 < n && IsSign(l[m + 1]) then m + 2 else m + 1;
    && q <= m < n && MantissaIn(l, q, m) && (l[m] == 'E' || l[m] == 'e')
    && r < n && forall k :: r <= k < n ==> IsDigit(l[k])
  }

  predicate WidthIn(l: string, p: nat, n: nat)
    requires p <= n <= |l|
  {
    exists m :: p <= m < n && WidthWithMarkIn(l, p, m, n)
  }

  /** A whole text that is a decay width. */
  predicate WidthShape(w: string) {
    WidthIn(w, 0, |w|)
  }

  /** Group 2 of the DECAY pattern tried at `p`: the end of the match the
      engine settles on, or None. A sign is taken when present; the mantissa
      must reach exactly the first character that is neither digit nor point,
      which must be the exponent mark; the exponent digits are taken greedily. */
  function WidthEnd(l: string, p: nat): (e: Option<nat>)
    requires p <= |l|
    ensures e.Some? ==> p < e.value <= |l|
  {
    var q := SignEnd(l, p);
    var m := SpanEnd(l, q, IsDigitOrDot);
    if MantissaIn(l, q, m) && m < |l| && (l[m] == 'E' || l[m] == 'e') then
      var r := SignEnd(l, m + 1);
      var n := SpanEnd(l, r, IsDigit);
      if n > r then Some(n) else None
    else None
  }

  /** What WidthEnd finds at `p` is a width, ended by a non-digit or the line's end. */
  lemma {:induction false} WidthEndSound(l: string, p: nat)
    requires p <= |l| && WidthEnd(l, p).Some?
    ensures WidthIn(l, p, WidthEnd(l, p).value)
    ensures WidthEnd(l, p).value == |l| || !IsDigit(l[WidthEnd(l, p).value])
  {
    var n := WidthEnd(l, p).value;
    var m := SpanEnd(l, SignEnd(l, p), IsDigitOrDot);
    SpanEndRun(l, SignEnd(l, p), IsDigitOrDot);
    SpanEndRun(l, SignEnd(l, m + 1), IsDigit);
    assert WidthWithMarkIn(l, p, m, n);
  }

  /** A width at `l[p..n]` is found at `p`, reaching at least `n`, and exactly
      `n` when no digit follows. */
  lemma {:induction false} WidthEndComplete(l: string, p: nat, n: nat)
    requires p <= n <= |l| && WidthIn(l, p, n)
    ensures WidthEnd(l, p).Some? && WidthEnd(l, p).value >= n
    ensures n == |l| || !IsDigit(l[n]) ==> WidthEnd(l, p) == Some(n)
  {
    var m0 :| p <= m0 < n && WidthWithMarkIn(l, p, m0, n);
    var q := SignEnd(l, p);
    SpanEndIs(l, q, m0, IsDigitOrDot);
    var r := SignEnd(l, m0 + 1);
    if n == |l| || !IsDigit(l[n]) {
      SpanEndIs(l, r, n, IsDigit);
    }
  }

  /** Positions `(s, e, p, n)` of a match: group 1 is `l[s..e]`, group 2 `l[p..n]`. */
  type Spans = (nat, nat, nat, nat)

  predicate InOrder(l: string, m: Spans) {
    m.0 < m.1 <= m.2 < m.3 <= |l|
  }

  /** Where group 1 of the DECAY pattern cannot take its whole digit run, `\d+`
      gives back digits one at a time; ending inside the run it is followed by
      a digit, so the lookahead holds, `\s*` matches nothing and the width must
      start right there. The longest shorter run that works is taken. */
  function ShorterPid(l: string, s: nat, d0: nat, e: nat): (r: Option<Spans>)
    requires s <= d0 <= |l| && e <= |l|
    ensures r.Some? ==> InOrder(l, r.value) && r.value.0 == s
    decreases e
  {
    if e <= d0 then None
    else match WidthEnd(l, e)
      case Some(w) => Some((s, e, e, w))
      case None => ShorterPid(l, s, d0, e - 1)
  }

  /** The whole DECAY pattern `((?:[\+\-])?\d+(?!\.))\s*(width)` tried at start `s`. */
  function DecayAttempt(l: string, s: nat): (r: Option<Spans>)
    requires s <= |l|
    ensures r.Some? ==> InOrder(l, r.value) && r.value.0 == s
  {
    var d0 := SignEnd(l, s);
    var run := SpanEnd(l, d0, IsDigit);
    if run == d0 then None
    else
      var p := SpanEnd(l, run, IsSpace);
      var full := if run == |l| || l[run] != '.' then WidthEnd(l, p) else None;
      if full.Some? then Some((s, run, p, full.value))
      else ShorterPid(l, s, d0, run - 1)
  }

  function DecaySearch(l: string, s: nat): (r: Option<Spans>)
    requires s <= |l|
    ensures r.Some? ==> InOrder(l, r.value)
    decreases |l| - s
  {
    match DecayAttempt(l, s)
    case Some(x) => Some(x)
    case None => if s == |l| then None else DecaySearch(l, s + 1)
  }

  /** `re.search` of the DECAY pattern: the particle-id text and the width text,
      or None when the line holds no match. The id text is one `int()` accepts
      (DecayFieldsExact states which matches are found). */
  function DecayFields(l: string): (r: Option<(string, string)>)
    ensures r.Some? ==> IsIntText(r.value.0)
  {
    match DecaySearch(l, 0)
    case Some((s, e, p, n)) =>
      DecaySearchSound(l, 0);
      IntInText(l, s, e);
      Some((l[s..e], l[p..n]))
    case None => None
  }

  /** `l[s..e]` is an optionally signed run of digits. */
  predicate IntIn(l: string, s: nat, e: nat)
    requires s <= e <= |l|
  {
    var d := if s < e && IsSign(l[s]) then s + 1 else s;
    d < e && forall k :: d <= k < e ==> IsDigit(l[k])
  }

  lemma {:induction false} IntInText(l: string, s: nat, e: nat)
    requires s <= e <= |l| && IntIn(l, s, e)
    ensures IsIntText(l[s..e])
  {
    var t := l[s..e];
    assert forall k :: 0 <= k < |t| ==> t[k] == l[s + k];
  }

  /** A match of the DECAY pattern with group 1 at `l[s..e]` and group 2 at
      `l[p..n]`: an optionally signed integer not followed by a point, then
      whitespace, then a width with an exponent. */
  predicate DecayMatchAt(l: string, s: int, e: int, p: int, n: int) {
    && 0 <= s < e <= p < n <= |l|
    && IntIn(l, s, e)
    && (e == |l| || l[e] != '.')
    && (forall k :: e <= k < p ==> IsSpace(l[k]))
    && WidthIn(l, p, n)
  }

  /** A group 1 that ends inside the digit run, followed directly by a width. */
  lemma {:induction false} ShorterMatch(l: string, s: nat, d0: nat, e: nat, n: nat)
    requires s <= d0 < e < n <= |l| && d0 == SignEnd(l, s)
    requires forall k :: d0 <= k <= e ==> IsDigit(l[k])
    requires WidthIn(l, e, n)
    ensures DecayMatchAt(l, s, e, e, n)
  {
  }

  lemma {:induction false} ShorterPidSound(l: string, s: nat, d0: nat, e: nat)
    requires s <= d0 <= e <= |l|
    requires d0 == SignEnd(l, s)
    requires forall k :: d0 <= k <= e && k < |l| ==> IsDigit(l[k])
    requires ShorterPid(l, s, d0, e).Some?
    ensures var m := ShorterPid(l, s, d0, e).value; DecayMatchAt(l, m.0, m.1, m.2, m.3)
    decreases e
  {
    match WidthEnd(l, e)
    case Some(w) =>
      WidthEndSound(l, e);
      ShorterMatch(l, s, d0, e, w);
    case None =>
      ShorterPidSound(l, s, d0, e - 1);
  }

  lemma {:induction false} DecayAttemptSound(l: string, s: nat)
    requires s <= |l| && DecayAttempt(l, s).Some?
    ensures var m := DecayAttempt(l, s).value; DecayMatchAt(l, m.0, m.1, m.2, m.3)
  {
    var d0 := SignEnd(l, s);
    var run := SpanEnd(l, d0, IsDigit);
    var p := SpanEnd(l, run, IsSpace);
    var full := if run == |l| || l[run] != '.' then WidthEnd(l, p) else None;
    var m := DecayAttempt(l, s).value;
    if full.Some? {
      assert DecayMatchAt(l, m.0, m.1, m.2, m.3) by {
        assert m == (s, run, p, full.value);
        SpanEndRun(l, d0, IsDigit);
        SpanEndRun(l, run, IsSpace);
        WidthEndSound(l, p);
        assert DecayMatchAt(l, s, run, p, full.value);
      }
    } else {
      assert DecayMatchAt(l, m.0, m.1, m.2, m.3) by {
        assert m == ShorterPid(l, s, d0, run - 1).value;
        SpanEndRun(l, d0, IsDigit);
        ShorterPidSound(l, s, d0, run - 1);
      }
    }
  }

  lemma {:induction false} DecaySearchSound(l: string, s: nat)
    requires s <= |l| && DecaySearch(l, s).Some?
    ensures var m := DecaySearch(l, s).value; DecayMatchAt(l, m.0, m.1, m.2, m.3)
    decreases |l| - s
  {
    if DecayAttempt(l, s).Some? {
      DecayAttemptSound(l, s);
    } else {
      DecaySearchSound(l, s + 1);
    }
  }

  lemma {:induction false} ShorterPidComplete(l: string, s: nat, d0: nat, e: nat, x: nat)
    requires s <= d0 < x <= e <= |l|
    requires WidthEnd(l, x).Some?
    ensures ShorterPid(l, s, d0, e).Some?
    decreases e
  {
    if WidthEnd(l, e).None? {
      ShorterPidComplete(l, s, d0, e - 1, x);
    }
  }

  /** A width never starts with whitespace. */
  lemma {:induction false} WidthStart(l: string, p: nat, n: nat)
    requires p <= n <= |l| && WidthIn(l, p, n)
    ensures p < n && !IsSpace(l[p])
  {
    var m :| p <= m < n && WidthWithMarkIn(l, p, m, n);
  }

  /** The digit run of a match starts after the optional sign and reaches at
      least the end of group 1. */
  lemma {:induction false} IntInRun(l: string, s: nat, e: nat)
    requires s <= e <= |l| && IntIn(l, s, e)
    ensures SignEnd(l, s) < e <= SpanEnd(l, SignEnd(l, s), IsDigit)
  {
    var d0 := SignEnd(l, s);
  }

  /** The attempt at `s` succeeds once the whole digit run is a valid group 1. */
  lemma {:induction false} FullRunFound(l: string, s: nat)
    requires s <= |l|
    requires var run := SpanEnd(l, SignEnd(l, s), IsDigit);
             && SignEnd(l, s) < run
             && (run == |l| || l[run] != '.')
             && WidthEnd(l, SpanEnd(l, run, IsSpace)).Some?
    ensures DecayAttempt(l, s).Some?
  {
  }

  /** The attempt at `s` when the whole digit run is group 1: the match it
      returns. */
  lemma {:induction false} FullRunAt(l: string, s: nat, run: nat, p: nat, n: nat)
    requires s <= |l| && SignEnd(l, s) < run < |l| && SpanEnd(l, SignEnd(l, s), IsDigit) == run
    requires l[run] != '.' && SpanEnd(l, run, IsSpace) == p && WidthEnd(l, p) == Some(n)
    ensures DecayAttempt(l, s) == Some((s, run, p, n))
  {
  }

  /** The attempt at `s` succeeds once a width starts inside the digit run. */
  lemma {:induction false} ShorterRunFound(l: string, s: nat, e: nat)
    requires s <= |l|
    requires SignEnd(l, s) < e < SpanEnd(l, SignEnd(l, s), IsDigit)
    requires WidthEnd(l, e).Some?
    ensures DecayAttempt(l, s).Some?
  {
    var d0 := SignEnd(l, s);
    var run := SpanEnd(l, d0, IsDigit);
    ShorterPidComplete(l, s, d0, run - 1, e);
  }

  lemma {:induction false} DecayAttemptComplete(l: string, s: nat, e: nat, p: nat, n: nat)
    requires DecayMatchAt(l, s, e, p, n)
    ensures DecayAttempt(l, s).Some?
  {
    var d0 := SignEnd(l, s);
    IntInRun(l, s, e);
    var run := SpanEnd(l, d0, IsDigit);
    WidthEndComplete(l, p, n);
    WidthStart(l, p, n);
    if run == e {
      SpanEndIs(l, run, p, IsSpace);
      FullRunFound(l, s);
    } else {
      SpanEndRun(l, d0, IsDigit);
      assert IsDigit(l[e]);
      ShorterRunFound(l, s, e);
    }
  }

  lemma {:induction false} DecaySearchComplete(l: string, s: nat, s': nat)
    requires s <= s' <= |l| && DecayAttempt(l, s').Some?
    ensures DecaySearch(l, s).Some?
    decreases s' - s
  {
    if DecayAttempt(l, s).None? {
      DecaySearchComplete(l, s + 1, s');
    }
  }

  /** A DECAY line yields fields exactly when it holds an optionally signed
      integer, not followed by a point, then optional whitespace, then a width
      with an exponent mark; and the fields returned are such a pair. */
  lemma {:induction false} DecayFieldsExact(l: string)
    ensures DecayFields(l).Some? <==> exists s, e, p, n :: DecayMatchAt(l, s, e, p, n)
    ensures DecayFields(l).Some? ==>
              exists s, e, p, n :: DecayMatchAt(l, s, e, p, n) && DecayFields(l).value == (l[s..e], l[p..n])
  {
    if DecayFields(l).Some? {
      DecaySearchSound(l, 0);
      var m := DecaySearch(l, 0).value;
      assert DecayMatchAt(l, m.0, m.1, m.2, m.3) && DecayFields(l).value == (l[m.0..m.1], l[m.2..m.3]);
    }
    if exists s, e, p, n :: DecayMatchAt(l, s, e, p, n) {
      var s, e, p, n :| DecayMatchAt(l, s, e, p, n);
      DecayAttemptComplete(l, s, e, p, n);
      DecaySearchComplete(l, 0, s);
    }
  }
}
