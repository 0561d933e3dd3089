/**
 * Reading back what `write` emits, with the corrected decay header
 * (RenderDecayHeader). For dictionaries whose records can be
 * written faithfully (see Writable), `process_input` on the written lines
 * raises nothing and rebuilds the same dictionaries in the same order, up to
 * the two changes the text format makes: a header comment `c` comes back as
 * `" " + c` (the `\s` after `#` is kept by `group()`), and an entry comment
 * comes back without its newlines but with the line's own newline at its end.
 */
module RoundTrip {
  import opened Wrappers
  import opened Text
  import opened Tokens
  import opened Lines
  import opened Headers
  import opened Records
  import opened Entries
  import opened Parse
  import opened Writer

  // ---------------------------------------------------------------------
  // Records that survive a round trip

  /** A rendered value that makes its line an ENTRY line: a digit, or a sign
      and a digit. */
  predicate LeadsEntry(t: string) {
    |t| > 0 && (IsDigit(t[0]) || (IsSign(t[0]) && |t| > 1 && IsDigit(t[1])))
  }

  /** An entry is read back as itself: every value is written as a token that
      converts back to it, the first one starting the line as an entry; a
      comment after values starts with `#` once its newlines are gone; an
      entry without values is a comment line. */
  predicate WritableEntry(e: Entry) {
    && AllCanonical(e.values)
    && (e.values != [] ==> LeadsEntry(RenderValue(e.values[0])))
    && (e.values != [] && e.comment.Some? ==>
          var c := StripNewlines(e.comment.value); |c| > 0 && c[0] == '#')
    && (e.values == [] ==> e.comment.Some? && StartsComment(StripNewlines(e.comment.value)))
  }

  predicate WritableEntries(es: seq<Entry>) {
    forall k {:trigger WritableEntry(es[k])} :: 0 <= k < |es| ==> WritableEntry(es[k])
  }

  /** A header comment is read up to the end of its line. */
  predicate WritableComment(c: Option<string>) {
    c.Some? ==> '\n' !in c.value
  }

  /** A block title is one token, without `#`. */
  predicate WritableBlock(b: Block) {
    IsToken(b.title) && '#' !in b.title && WritableComment(b.comment) && WritableEntries(b.entries)
  }

  /** A decay width has the shape the DECAY pattern reads and converts with `float()`. */
  predicate WritableDecay(d: Decay) {
    WidthShape(d.width) && IsPyFloat(d.width) && WritableComment(d.comment) && WritableEntries(d.entries)
  }

  /** Every stored block is writable. */
  predicate BlocksWritable(t: Tables) {
    forall k {:trigger WritableBlock(t.blocks[k])} :: k in t.blocks ==> WritableBlock(t.blocks[k])
  }

  /** Every stored decay is writable. */
  predicate DecaysWritable(t: Tables) {
    forall k {:trigger WritableDecay(t.decays[k])} :: k in t.decays ==> WritableDecay(t.decays[k])
  }

  predicate Writable(t: Tables) {
    WellFormed(t) && BlocksWritable(t) && DecaysWritable(t)
  }

  // ---------------------------------------------------------------------
  // What reading back changes

  function NormHeaderComment(c: Option<string>): Option<string> {
    match c
    case None => None
    case Some(x) => Some(" " + x)
  }

  function NormEntry(e: Entry): Entry {
    match e.comment
    case None => e
    case Some(c) => e.(comment := Some(StripNewlines(c) + "\n"))
  }

  function NormEntries(es: seq<Entry>): (r: seq<Entry>)
    ensures |r| == |es|
    decreases |es|
  {
    if es == [] then [] else NormEntries(es[..|es| - 1]) + [NormEntry(es[|es| - 1])]
  }

  function NormBlock(b: Block): Block {
    Block(b.title, NormHeaderComment(b.comment), NormEntries(b.entries))
  }

  function NormDecay(d: Decay): Decay {
    Decay(d.pdgid, d.width, NormHeaderComment(d.comment), NormEntries(d.entries))
  }

  function Normalized(t: Tables): Tables {
    Tables(t.blockKeys, map k | k in t.blocks :: NormBlock(t.blocks[k]),
           t.decayKeys, map k | k in t.decays :: NormDecay(t.decays[k]))
  }

  // ---------------------------------------------------------------------
  // Entry lines

  /** The tokens of rendered values. */
  function ValueTokens(vs: seq<Value>): (r: seq<string>)
    ensures |r| == |vs|
    decreases |vs|
  {
    if vs == [] then [] else [RenderValue(vs[0])] + ValueTokens(vs[1..])
  }

  /** Every value is canonical (see Tokens.Canonical). */
  predicate AllCanonical(vs: seq<Value>)
    decreases |vs|
  {
    vs == [] || (Canonical(vs[0]) && AllCanonical(vs[1..]))
  }

  /** Tokens each preceded by a tab. */
  function JoinTabs(ts: seq<string>): string
    decreases |ts|
  {
    if ts == [] then "" else "\t" + ts[0] + JoinTabs(ts[1..])
  }

  /** `Entry.__str__` writes the values as their tokens, each after a tab. */
  lemma {:induction false} RenderValuesJoin(vs: seq<Value>)
    ensures RenderValues(vs) == JoinTabs(ValueTokens(vs))
    decreases |vs|
  {
    if vs != [] {
      RenderValuesJoin(vs[1..]);
      assert ValueTokens(vs)[1..] == ValueTokens(vs[1..]);
    }
  }

  predicate AllTokens(ts: seq<string>) {
    forall k :: 0 <= k < |ts| ==> IsToken(ts[k])
  }

  lemma {:induction false} CanonicalTokens(vs: seq<Value>)
    requires AllCanonical(vs)
    ensures AllTokens(ValueTokens(vs))
    decreases |vs|
  {
    if vs != [] {
      CanonicalTokens(vs[1..]);
      assert ValueTokens(vs) == [RenderValue(vs[0])] + ValueTokens(vs[1..]);
    }
  }

  lemma {:induction false} Associative<T>(a: seq<T>, b: seq<T>, c: seq<T>)
    ensures a + (b + c) == (a + b) + c
  {
  }

  /** A tab and a token split into that token. */
  lemma {:induction false} TabToken(t: string, more: string)
    requires IsToken(t) && (more == [] || IsSpace(more[0]))
    ensures Split("\t" + t + more) == [t] + Split(more)
  {
    assert "\t" + t + more == ['\t'] + (t + more);
    SplitSpace('\t', t + more);
    SplitToken(t, more);
  }

  /** Tab-joined tokens start with a tab, when there are any. */
  lemma {:induction false} JoinStart(ts: seq<string>, rest: string)
    requires rest == [] || IsSpace(rest[0])
    ensures var s := JoinTabs(ts) + rest; s == [] || IsSpace(s[0])
  {
    if ts != [] {
      assert (JoinTabs(ts) + rest)[0] == '\t';
    }
  }

  /** Tab-joined tokens, one peeled off the front. */
  lemma {:induction false} JoinTabsCons(ts: seq<string>, rest: string)
    requires ts != []
    ensures JoinTabs(ts) + rest == "\t" + ts[0] + (JoinTabs(ts[1..]) + rest)
  {
  }

  lemma {:induction false} ConsAppend<T>(xs: seq<T>, tail: seq<T>)
    requires xs != []
    ensures [xs[0]] + (xs[1..] + tail) == xs + tail
  {
    assert [xs[0]] + xs[1..] == xs;
  }

  /** One token more in front of a split of tab-joined tokens. */
  lemma {:induction false} SplitTabsStep(ts: seq<string>, rest: string)
    requires ts != [] && AllTokens(ts)
    requires rest == [] || IsSpace(rest[0])
    requires Split(JoinTabs(ts[1..]) + rest) == ts[1..] + Split(rest)
    ensures Split(JoinTabs(ts) + rest) == ts + Split(rest)
  {
    JoinStart(ts[1..], rest);
    JoinTabsCons(ts, rest);
    TabToken(ts[0], JoinTabs(ts[1..]) + rest);
    ConsAppend(ts, Split(rest));
  }

  /** Tab-joined tokens split back into the tokens. */
  lemma {:induction false} SplitTabs(ts: seq<string>, rest: string)
    requires AllTokens(ts)
    requires rest == [] || IsSpace(rest[0])
    ensures Split(JoinTabs(ts) + rest) == ts + Split(rest)
    decreases |ts|
  {
    if ts != [] {
      SplitTabs(ts[1..], rest);
      SplitTabsStep(ts, rest);
    } else {
      assert JoinTabs(ts) + rest == rest;
    }
  }

  /** No `#` in written values. */
  lemma {:induction false} NoHashInValues(vs: seq<Value>)
    requires AllCanonical(vs)
    ensures '#' !in RenderValues(vs)
    decreases |vs|
  {
    if vs != [] {
      var t := RenderValue(vs[0]);
      assert !MatchesComment(t);
      NoHashInValues(vs[1..]);
      assert RenderValues(vs) == "\t" + t + RenderValues(vs[1..]);
    }
  }

  /** What a canonical value's token reads back as. */
  lemma {:induction false} CanonicalReads(v: Value)
    requires Canonical(v)
    ensures !IsCommentToken(RenderValue(v)) && TokenValue(RenderValue(v)) == Some(v)
  {
  }

  /** The first value's token in front of the rest. */
  lemma {:induction false} ValueTokensCons(vs: seq<Value>, more: seq<string>)
    requires vs != []
    ensures ValueTokens(vs) + more == [RenderValue(vs[0])] + (ValueTokens(vs[1..]) + more)
  {
  }

  /** A value token in front of the scanned tokens adds its value in front. */
  lemma {:induction false} ScanCons(line: string, t: string, toks: seq<string>, v: Value)
    requires !IsCommentToken(t) && TokenValue(t) == Some(v)
    ensures var r := EntryFromTokens(line, toks);
            EntryFromTokens(line, [t] + toks) == Entry([v] + r.values, r.comment)
  {
    assert ([t] + toks)[0] == t;
    assert ([t] + toks)[1..] == toks;
  }

  /** The scan reads the value tokens back as the values. */
  lemma {:induction false} ScanValues(line: string, vs: seq<Value>, more: seq<string>)
    requires AllCanonical(vs)
    ensures var r := EntryFromTokens(line, more);
            EntryFromTokens(line, ValueTokens(vs) + more) == Entry(vs + r.values, r.comment)
    decreases |vs|
  {
    if vs != [] {
      ScanValues(line, vs[1..], more);
      CanonicalReads(vs[0]);
      ValueTokensCons(vs, more);
      ScanCons(line, RenderValue(vs[0]), ValueTokens(vs[1..]) + more, vs[0]);
      ConsAppend(vs, EntryFromTokens(line, more).values);
    } else {
      assert ValueTokens(vs) + more == more;
    }
  }

  /** `str.find` past a prefix without the character. */
  lemma {:induction false} FindAfter(a: string, b: string, c: char)
    requires c !in a
    ensures Find(a + b, c) == (if Find(b, c) == -1 then -1 else |a| + Find(b, c))
    decreases |a|
  {
    if a != [] {
      assert (a + b)[1..] == a[1..] + b;
      FindAfter(a[1..], b, c);
    } else {
      assert a + b == b;
    }
  }

  /** A tab, then a token that leads an entry: an ENTRY line. */
  lemma {:induction false} TabLeadIsEntry(t: string, more: string)
    requires LeadsEntry(t)
    ensures LineType("\t" + t + more) == EntryLine
  {
    var l := "\t" + t + more;
    assert l[0] == '\t' && l[1] == t[0];
    assert |t| > 1 ==> l[2] == t[1];
    SpanEndIs(l, 0, 1, IsSpace);
  }

  /** A text whose first non-whitespace character is `#`, with the line's
      newline after it, is a COMMENT line. */
  lemma {:induction false} CommentTextIsComment(c: string)
    requires StartsComment(c)
    ensures LineType(c + "\n") == CommentLine
  {
    var l := c + "\n";
    var p := SpanEnd(c, 0, IsSpace);
    SpanEndRun(c, 0, IsSpace);
    SpanEndIs(l, 0, p, IsSpace);
    assert l[p] == '#';
    assert l[0] == '#' || IsSpace(l[0]);
  }

  /** After the values, a tab and a `#` start a COMMENT token, which ends the
      scan with the line's comment. */
  lemma {:induction false} HashTail(line: string, sc: string)
    requires |sc| > 0 && sc[0] == '#'
    ensures EntryFromTokens(line, Split("\t" + sc + "\n")) == Entry([], Some(CommentOf(line)))
  {
    var s := sc + "\n";
    assert "\t" + sc + "\n" == ['\t'] + s;
    SplitSpace('\t', s);
    var n := SpanEnd(s, 0, IsNonSpace);
    var toks := Split(s);
    assert toks[0] == s[..n];
    assert toks[0][0] == '#';
    assert IsCommentToken(toks[0]);
  }

  /** The line's newline holds no token. */
  lemma {:induction false} NewlineTail(line: string)
    ensures EntryFromTokens(line, Split("\n")) == Entry([], None)
  {
    assert "\n"[1..] == [];
  }

  /** `line[line.find('#'):]` after a prefix without `#`, a tab and a text
      starting with `#`: the text and the newline. */
  lemma {:induction false} CommentAfterPrefix(s: string, sc: string)
    requires '#' !in s && |sc| > 0 && sc[0] == '#'
    ensures CommentOf(s + ("\t" + sc + "\n")) == sc + "\n"
  {
    var tail := "\t" + sc + "\n";
    FindAfter(s, tail, '#');
    assert tail[1..][0] == '#';
    assert Find(tail, '#') == 1;
    assert (s + tail)[|s| + 1..] == sc + "\n";
  }

  /** The comment of a written entry line is everything after the values'
      tab, the newline included. */
  lemma {:induction false} CommentAfterValues(vs: seq<Value>, sc: string)
    requires AllCanonical(vs) && |sc| > 0 && sc[0] == '#'
    ensures CommentOf(RenderValues(vs) + ("\t" + sc + "\n")) == sc + "\n"
  {
    NoHashInValues(vs);
    CommentAfterPrefix(RenderValues(vs), sc);
  }

  /** Written values followed by `tail` form an ENTRY line whose tokens are the
      values' tokens, then those of `tail`. */
  lemma {:induction false} ValuesLine(vs: seq<Value>, tail: string)
    requires vs != [] && AllCanonical(vs) && LeadsEntry(RenderValue(vs[0]))
    requires tail == [] || IsSpace(tail[0])
    ensures LineType(RenderValues(vs) + tail) == EntryLine
    ensures Split(RenderValues(vs) + tail) == ValueTokens(vs) + Split(tail)
  {
    assert RenderValues(vs) + tail == "\t" + RenderValue(vs[0]) + (RenderValues(vs[1..]) + tail);
    TabLeadIsEntry(RenderValue(vs[0]), RenderValues(vs[1..]) + tail);
    RenderValuesJoin(vs);
    CanonicalTokens(vs);
    SplitTabs(ValueTokens(vs), tail);
  }

  /** The entry an entry line with values is read as. */
  lemma {:induction false} ValuesEntryRead(vs: seq<Value>, comment: Option<string>)
    requires vs != [] && AllCanonical(vs) && LeadsEntry(RenderValue(vs[0]))
    requires comment.Some? ==> |comment.value| > 0 && comment.value[0] == '#'
    ensures var tail := if comment.Some? then "\t" + comment.value + "\n" else "\n";
            var line := RenderValues(vs) + tail;
            && LineType(line) == EntryLine
            && EntryOf(line) == Entry(vs, if comment.Some? then Some(comment.value + "\n") else None)
  {
    var tail := if comment.Some? then "\t" + comment.value + "\n" else "\n";
    var line := RenderValues(vs) + tail;
    ValuesLine(vs, tail);
    ScanValues(line, vs, Split(tail));
    if comment.Some? {
      HashTail(line, comment.value);
      CommentAfterValues(vs, comment.value);
    } else {
      NewlineTail(line);
    }
    assert vs + [] == vs;
  }

  /** A written entry line is read back as the entry, its comment normalized;
      it is no header. */
  lemma {:induction false} EntryLineRead(e: Entry)
    requires WritableEntry(e)
    ensures var info := Classify(RenderEntry(e) + "\n");
            !info.BlockHeader? && !info.DecayHeader? && LineEntries(info) == [NormEntry(e)]
  {
    var line := RenderEntry(e) + "\n";
    if e.values == [] {
      var sc := StripNewlines(e.comment.value);
      assert line == sc + "\n";
      CommentTextIsComment(sc);
    } else {
      var sc := if e.comment.Some? then Some(StripNewlines(e.comment.value)) else None;
      var tail := if sc.Some? then "\t" + sc.value + "\n" else "\n";
      assert line == RenderValues(e.values) + tail;
      ValuesEntryRead(e.values, sc);
    }
  }

  // ---------------------------------------------------------------------
  // Header lines

  /** The comment segment of a header after a prefix without `#` is read
      back as the comment with the space that follows `#`. */
  lemma {:induction false} HeaderCommentRead(pre: string, comment: Option<string>)
    requires '#' !in pre && WritableComment(comment)
    ensures HeaderComment(pre + HeaderCommentSegment(comment) + "\n") == NormHeaderComment(comment)
  {
    match comment
    case None =>
      var l := pre + "\n";
      assert pre + HeaderCommentSegment(comment) + "\n" == l;
      CommentFromSkip(l, 1, |l|);
    case Some(c) =>
      assert pre + HeaderCommentSegment(comment) + "\n" == pre + "\t# " + c + "\n";
      SomeCommentRead(pre, c);
  }

  /** The `\t# ` segment of a comment, after a prefix without `#`. */
  lemma {:induction false} SomeCommentRead(pre: string, c: string)
    requires '#' !in pre && '\n' !in c
    ensures HeaderComment(pre + "\t# " + c + "\n") == Some(" " + c)
  {
    var l := pre + "\t# " + c + "\n";
    var h := |pre| + 1;
    assert l[h] == '#' && l[h + 1] == ' ';
    CommentFromSkip(l, 1, h + 1);
    SpanEndIs(l, h + 2, |l| - 1, IsNotNewline);
    assert l[h + 1..|l| - 1] == " " + c;
  }

  /** A written BLOCK header is read back as the block's title and its
      comment. */
  lemma {:induction false} BlockHeaderRead(b: Block)
    requires WritableBlock(b)
    ensures Classify(RenderBlockHeader(b) + "\n") == BlockHeader(b.title, NormHeaderComment(b.comment))
  {
    var pre := "BLOCK\t" + b.title;
    var l := RenderBlockHeader(b) + "\n";
    assert l == pre + HeaderCommentSegment(b.comment) + "\n";
    var n := 6 + |b.title|;
    assert l[..6] == "BLOCK\t" && l[6..n] == b.title;
    assert l[n] == '\t' || l[n] == '\n';
    assert KeywordAtStart(l, "BLOCK");
    SpanEndIs(l, 5, 6, IsSpace);
    SpanEndIs(l, 6, n, IsNonSpace);
    HeaderCommentRead(pre, b.comment);
  }

  /** A width is written without `#` and without a newline. */
  lemma {:induction false} WidthNoHash(w: string)
    requires WidthShape(w)
    ensures '#' !in w && '\n' !in w
  {
    var m :| 0 <= m < |w| && WidthWithMarkIn(w, 0, m, |w|);
    forall k | 0 <= k < |w| ensures w[k] != '#' && w[k] != '\n' {
    }
  }

  /** The mantissa condition holds of a copy of the text it held of. */
  lemma {:induction false} MantissaShift(l: string, w: string, p: nat, a: nat, b: nat)
    requires p + |w| <= |l| && l[p..p + |w|] == w
    requires a <= b <= |w| && MantissaIn(w, a, b)
    ensures MantissaIn(l, p + a, p + b)
  {
    forall k | p + a <= k < p + b ensures IsDigitOrDot(l[k]) && (l[k] == '.' ==> k <= p + a + 1) {
      assert l[k] == w[k - p];
    }
    if b - a >= 2 {
      assert l[p + a] == w[a] && l[p + a + 1] == w[a + 1];
    }
  }

  /** A width copied into a line at `p` is a width there, with its mark
      moved by `p`. */
  lemma {:induction false} WidthShift(l: string, w: string, p: nat, m: nat)
    requires p + |w| <= |l| && l[p..p + |w|] == w
    requires m < |w| && WidthWithMarkIn(w, 0, m, |w|)
    ensures WidthWithMarkIn(l, p, p + m, p + |w|)
  {
    var q := if 0 < |w| && IsSign(w[0]) then 1 else 0;
    var r := if m + 1 < |w| && IsSign(w[m + 1]) then m + 2 else m + 1;
    assert l[p] == w[0] && l[p + m] == w[m];
    if m + 1 < |w| {
      assert l[p + m + 1] == w[m + 1];
    }
    MantissaShift(l, w, p, q, m);
    forall k | p + r <= k < p + |w| ensures IsDigit(l[k]) {
      assert l[k] == w[k - p];
    }
  }

  /** A width written at `p`, followed by a non-digit, is group 2 of the
      DECAY pattern tried at `p`. */
  lemma {:induction false} WidthAt(l: string, p: nat, w: string)
    requires WidthShape(w) && p + |w| < |l| && l[p..p + |w|] == w && !IsDigit(l[p + |w|])
    ensures WidthEnd(l, p) == Some(p + |w|) && !IsSpace(l[p])
  {
    var m :| 0 <= m < |w| && WidthWithMarkIn(w, 0, m, |w|);
    WidthShift(l, w, p, m);
    WidthEndComplete(l, p, p + |w|);
    WidthStart(l, p, p + |w|);
  }

  /** No attempt of the DECAY pattern starts on a character that is neither
      a sign nor a digit. */
  lemma {:induction false} NoAttemptAt(l: string, s: nat)
    requires s < |l| && !IsDigit(l[s]) && !IsSign(l[s])
    ensures DecayAttempt(l, s).None?
  {
  }

  lemma {:induction false} DecaySearchSkip(l: string, s: nat, s': nat)
    requires s <= s' <= |l|
    requires forall k :: s <= k < s' ==> DecayAttempt(l, k).None?
    ensures DecaySearch(l, s) == DecaySearch(l, s')
    decreases s' - s
  {
    if s < s' {
      DecaySearchSkip(l, s + 1, s');
    }
  }

  /** A written particle id at `o`, followed by a tab: its digit run ends
      at the tab. */
  lemma {:induction false} PidRunAt(l: string, o: nat, pid: string)
    requires IsIntText(pid) && o + |pid| < |l|
    requires l[o..o + |pid|] == pid && l[o + |pid|] == '\t'
    ensures SignEnd(l, o) < o + |pid| && SpanEnd(l, SignEnd(l, o), IsDigit) == o + |pid|
  {
    assert forall k :: 0 <= k < |pid| ==> l[o + k] == pid[k];
    var d0 := SignEnd(l, o);
    assert d0 == o + SignEnd(pid, 0);
    SpanEndIs(l, d0, o + |pid|, IsDigit);
  }

  /** The attempt at the start of a written particle id takes the whole id
      as group 1 and the written width as group 2. */
  lemma {:induction false} AttemptAtPid(l: string, o: nat, pid: string, w: string)
    requires IsIntText(pid) && WidthShape(w)
    requires o + |pid| + 1 + |w| < |l|
    requires l[o..o + |pid|] == pid && l[o + |pid|] == '\t'
    requires l[o + |pid| + 1..o + |pid| + 1 + |w|] == w && !IsDigit(l[o + |pid| + 1 + |w|])
    ensures DecayAttempt(l, o) == Some((o, o + |pid|, o + |pid| + 1, o + |pid| + 1 + |w|))
  {
    var e := o + |pid|;
    PidRunAt(l, o, pid);
    WidthAt(l, e + 1, w);
    SpanEndIs(l, e, e + 1, IsSpace);
    FullRunAt(l, o, e, e + 1, e + 1 + |w|);
  }

  /** No attempt starts inside the keyword and its tab: the search goes on
      from column 6. */
  lemma {:induction false} NoAttemptInKeyword(l: string)
    requires |l| >= 6 && l[..6] == "DECAY\t"
    ensures DecaySearch(l, 0) == DecaySearch(l, 6)
  {
    forall k | 0 <= k < 6 ensures DecayAttempt(l, k).None? {
      assert l[k] == "DECAY\t"[k];
      NoAttemptAt(l, k);
    }
    DecaySearchSkip(l, 0, 6);
  }

  /** The search succeeds at a start where the attempt does. */
  lemma {:induction false} SearchAt(l: string, s: nat, m: Spans)
    requires s <= |l| && DecayAttempt(l, s) == Some(m)
    ensures DecaySearch(l, s) == Some(m)
  {
  }

  /** The search from a written particle id at column 6 matches there. */
  lemma {:induction false} SearchAtPid(l: string, pid: string, w: string)
    requires IsIntText(pid) && WidthShape(w)
    requires 6 + |pid| + 1 + |w| < |l|
    requires l[6..6 + |pid|] == pid && l[6 + |pid|] == '\t'
    requires l[7 + |pid|..7 + |pid| + |w|] == w && !IsDigit(l[7 + |pid| + |w|])
    ensures DecaySearch(l, 6) == Some((6, 6 + |pid|, 7 + |pid|, 7 + |pid| + |w|))
  {
    AttemptAtPid(l, 6, pid, w);
    SearchAt(l, 6, (6, 6 + |pid|, 7 + |pid|, 7 + |pid| + |w|));
  }

  /** The groups of the match the search finds are the fields. */
  lemma {:induction false} FieldsFromSearch(l: string, s: nat, e: nat, p: nat, n: nat, pid: string, w: string)
    requires DecaySearch(l, 0) == Some((s, e, p, n))
    requires s <= e <= p <= n <= |l| && l[s..e] == pid && l[p..n] == w
    ensures DecayFields(l) == Some((pid, w))
  {
  }

  /** On a line starting with the keyword, the match found from column 6
      gives the fields. */
  lemma {:induction false} FieldsAfterKeyword(l: string, s: nat, e: nat, p: nat, n: nat, pid: string, w: string)
    requires |l| >= 6 && l[..6] == "DECAY\t"
    requires DecaySearch(l, 6) == Some((s, e, p, n))
    requires s <= e <= p <= n <= |l| && l[s..e] == pid && l[p..n] == w
    ensures DecayFields(l) == Some((pid, w))
  {
    NoAttemptInKeyword(l);
    FieldsFromSearch(l, s, e, p, n, pid, w);
  }

  /** `re.search` on a line that starts with the keyword, a tab, a particle
      id, a tab and a width finds that id and width. */
  lemma {:induction false} DecayFieldsRead(l: string, pid: string, w: string)
    requires IsIntText(pid) && WidthShape(w)
    requires 6 + |pid| + 1 + |w| < |l|
    requires l[..6] == "DECAY\t" && l[6..6 + |pid|] == pid && l[6 + |pid|] == '\t'
    requires l[7 + |pid|..7 + |pid| + |w|] == w && !IsDigit(l[7 + |pid| + |w|])
    ensures DecayFields(l) == Some((pid, w))
  {
    var e := 6 + |pid|;
    SearchAtPid(l, pid, w);
    FieldsAfterKeyword(l, 6, e, e + 1, e + 1 + |w|, pid, w);
  }

  /** A particle id and a width hold no `#`. */
  lemma {:induction false} DecayPrefixNoHash(pid: string, w: string)
    requires IsIntText(pid) && WidthShape(w)
    ensures '#' !in "DECAY\t" + pid + "\t" + w
  {
    WidthNoHash(w);
    assert '#' !in pid by {
      forall k | 0 <= k < |pid| ensures pid[k] != '#' {
        assert IsSign(pid[k]) || IsDigit(pid[k]);
      }
    }
  }

  /** A line starting with the keyword and a tab is a DECAY line. */
  lemma {:induction false} DecayKeywordLine(l: string)
    requires |l| >= 6 && l[..6] == "DECAY\t"
    ensures LineType(l) == DecayLine
  {
    assert l[0] == 'D' && l[1] == 'E' && l[2] == 'C' && l[3] == 'A' && l[4] == 'Y' && l[5] == '\t';
  }

  lemma {:induction false} ClassifyDecayLine(l: string)
    requires LineType(l) == DecayLine
    ensures Classify(l) == DecayHeader(DecayParams(l), HeaderComment(l))
  {
  }

  /** The id text of a written decay converts back to the id. */
  lemma {:induction false} DecayParamsRead(l: string, pid: int, w: string)
    requires DecayFields(l) == Some((IntToString(pid), w))
    ensures DecayParams(l) == Some((pid, w))
  {
    IntTextRoundTrip(pid);
  }

  /** The keyword, a tab, a written id, a tab and a width, then a tab or the
      newline: a DECAY line whose pattern reads that id and width. */
  lemma {:induction false} DecayTextRead(pid: int, w: string, seg: string)
    requires WidthShape(w) && (seg == [] || seg[0] == '\t')
    ensures var l := "DECAY\t" + IntToString(pid) + "\t" + w + seg + "\n";
            LineType(l) == DecayLine && DecayParams(l) == Some((pid, w))
  {
    var p := IntToString(pid);
    var l := "DECAY\t" + p + "\t" + w + seg + "\n";
    IntTextRoundTrip(pid);
    DecayTextFields(p, w, seg);
    DecayKeywordLine(l);
    DecayParamsRead(l, pid, w);
  }

  /** The pattern reads the id text and the width back from the line. */
  lemma {:induction false} DecayTextFields(p: string, w: string, seg: string)
    requires IsIntText(p) && WidthShape(w) && (seg == [] || seg[0] == '\t')
    ensures var l := "DECAY\t" + p + "\t" + w + seg + "\n";
            |l| >= 6 && l[..6] == "DECAY\t" && DecayFields(l) == Some((p, w))
  {
    var l := "DECAY\t" + p + "\t" + w + seg + "\n";
    DecayTextSlices(p, w, seg);
    DecayFieldsRead(l, p, w);
  }

  /** Where the keyword, the id and the width sit in the line. */
  lemma {:induction false} DecayTextSlices(p: string, w: string, seg: string)
    requires seg == [] || seg[0] == '\t'
    ensures var l := "DECAY\t" + p + "\t" + w + seg + "\n";
            var n := 7 + |p| + |w|;
            && n < |l| && l[..6] == "DECAY\t" && l[6..6 + |p|] == p && l[6 + |p|] == '\t'
            && l[7 + |p|..n] == w && (l[n] == '\t' || l[n] == '\n')
  {
    var l := "DECAY\t" + p + "\t" + w + seg + "\n";
    var n := 7 + |p| + |w|;
    assert l[..6] == "DECAY\t" && l[6..6 + |p|] == p && l[6 + |p|] == '\t';
    assert l[7 + |p|..n] == w && (l[n] == '\t' || l[n] == '\n');
  }

  /** A written DECAY header is read back as the decay's id, width and
      comment. */
  lemma {:induction false} DecayHeaderRead(d: Decay)
    requires WritableDecay(d)
    ensures Classify(RenderDecayHeader(d) + "\n")
            == DecayHeader(Some((d.pdgid, d.width)), NormHeaderComment(d.comment))
  {
    var l := RenderDecayHeader(d) + "\n";
    var pre := "DECAY\t" + IntToString(d.pdgid) + "\t" + d.width;
    IntTextRoundTrip(d.pdgid);
    DecayTextRead(d.pdgid, d.width, HeaderCommentSegment(d.comment));
    ClassifyDecayLine(l);
    DecayPrefixNoHash(IntToString(d.pdgid), d.width);
    HeaderCommentRead(pre, d.comment);
  }

  /** The comment segment `\t# x` after a written id and width is read back
      as " " + x. */
  lemma {:induction false} DecayCommentedRead(pid: int, w: string, x: string)
    requires WidthShape(w) && '\n' !in x
    ensures HeaderComment("DECAY\t" + IntToString(pid) + "\t" + w + "\t# " + x + "\n") == Some(" " + x)
  {
    var p := IntToString(pid);
    IntTextRoundTrip(pid);
    DecayPrefixNoHash(p, w);
    SomeCommentRead("DECAY\t" + p + "\t" + w, x);
  }

  /** The DECAY header as the source writes it does not read back as the
      decay: a decay without comment comes back with the comment " None", and
      one with comment c comes back with c twice. */
  lemma {:induction false} DecayHeaderAsWrittenRead(d: Decay)
    requires WidthShape(d.width) && WritableComment(d.comment)
    ensures var l := RenderDecayHeaderAsWritten(d) + "\n";
            && (d.comment.None? ==> HeaderComment(l) == Some(" None"))
            && (d.comment.Some? ==> HeaderComment(l) == Some(" " + d.comment.value + "\t" + d.comment.value))
  {
    var pre := "DECAY\t" + IntToString(d.pdgid) + "\t" + d.width;
    match d.comment
    case None =>
      assert RenderDecayHeaderAsWritten(d) + "\n" == pre + "\t# " + "None" + "\n";
      DecayCommentedRead(d.pdgid, d.width, "None");
      assert " " + "None" == " None";
    case Some(c) =>
      NoNewlineStripped(c);
      var x := c + "\t" + c;
      assert RenderDecayHeaderAsWritten(d) + "\n" == pre + "\t# " + x + "\n";
      DecayCommentedRead(d.pdgid, d.width, x);
      assert " " + x == " " + c + "\t" + c;
  }

  // ---------------------------------------------------------------------
  // Sections

  /** A read line that adds exactly the entry `e`, normalized, and is no
      header. */
  predicate ReadsAs(info: LineInfo, e: Entry) {
    !info.BlockHeader? && !info.DecayHeader? && LineEntries(info) == [NormEntry(e)]
  }

  /** Read line `o + k` adds the entry `es[k]`. */
  predicate ReadAt(infos: seq<LineInfo>, o: int, es: seq<Entry>, k: int) {
    0 <= k < |es| && 0 <= o + k < |infos| && ReadsAs(infos[o + k], es[k])
  }

  /** The read lines from `o` on add the entries `es`, one each. */
  predicate ReadFrom(infos: seq<LineInfo>, o: nat, es: seq<Entry>) {
    o + |es| <= |infos| && forall k :: 0 <= k < |es| ==> ReadAt(infos, o, es, k)
  }

  /** A run of one line is one step. */
  lemma {:induction false} RunOne(st: State, infos: seq<LineInfo>, o: nat)
    requires st.error.None? && o < |infos|
    ensures Run(st, infos, o, o + 1) == Step(st, infos[o], o)
  {
    RunLast(st, infos, o, o + 1);
  }

  /** Entries appended to a block just put are entries of the block put. */
  lemma {:induction false} PutBlockAppend(t: Tables, title: string, c: Option<string>, xs: seq<Entry>, ys: seq<Entry>)
    ensures AppendAll(PutBlock(t, Block(title, c, xs)), InBlock(title), ys) == PutBlock(t, Block(title, c, xs + ys))
  {
  }

  /** Entries appended to a decay just put are entries of the decay put. */
  lemma {:induction false} PutDecayAppend(t: Tables, pid: int, w: string, c: Option<string>, xs: seq<Entry>, ys: seq<Entry>)
    ensures AppendAll(PutDecay(t, Decay(pid, w, c, xs)), InDecay(pid), ys) == PutDecay(t, Decay(pid, w, c, xs + ys))
  {
  }

  /** The first `j` entries normalized, one more than the first `j - 1`. */
  lemma {:induction false} NormEntriesPrefix(es: seq<Entry>, j: nat)
    requires 0 < j <= |es|
    ensures NormEntries(es[..j]) == NormEntries(es[..j - 1]) + [NormEntry(es[j - 1])]
  {
    assert es[..j][..j - 1] == es[..j - 1];
  }

  /** A block header read at `o` and the first `j` entry lines after it:
      the block with those entries, normalized. */
  lemma {:induction false} BlockRunPrefix(st: State, infos: seq<LineInfo>, o: nat, title: string, c: Option<string>,
                                          es: seq<Entry>, j: nat)
    requires st.error.None?
    requires ReadFrom(infos, o + 1, es) && infos[o] == BlockHeader(title, c) && j <= |es|
    ensures Run(st, infos, o, o + 1 + j)
            == State(PutBlock(st.tables, Block(title, c, NormEntries(es[..j]))), InBlock(title), None)
    decreases j
  {
    if j == 0 {
      assert es[..0] == [];
      RunOne(st, infos, o);
    } else {
      BlockRunPrefix(st, infos, o, title, c, es, j - 1);
      RunLast(st, infos, o, o + 1 + j);
      var front := NormEntries(es[..j - 1]);
      assert ReadAt(infos, o + 1, es, j - 1);
      BodyStep(State(PutBlock(st.tables, Block(title, c, front)), InBlock(title), None), infos[o + j], o + j);
      PutBlockAppend(st.tables, title, c, front, [NormEntry(es[j - 1])]);
      NormEntriesPrefix(es, j);
    }
  }

  /** A decay header read at `o`, with a float width, and the first `j`
      entry lines after it: the decay with those entries, normalized. */
  lemma {:induction false} DecayRunPrefix(st: State, infos: seq<LineInfo>, o: nat, pid: int, w: string, c: Option<string>,
                                          es: seq<Entry>, j: nat)
    requires st.error.None? && IsPyFloat(w)
    requires ReadFrom(infos, o + 1, es) && infos[o] == DecayHeader(Some((pid, w)), c) && j <= |es|
    ensures Run(st, infos, o, o + 1 + j)
            == State(PutDecay(st.tables, Decay(pid, w, c, NormEntries(es[..j]))), InDecay(pid), None)
    decreases j
  {
    if j == 0 {
      assert es[..0] == [];
      RunOne(st, infos, o);
    } else {
      DecayRunPrefix(st, infos, o, pid, w, c, es, j - 1);
      RunLast(st, infos, o, o + 1 + j);
      var front := NormEntries(es[..j - 1]);
      assert ReadAt(infos, o + 1, es, j - 1);
      BodyStep(State(PutDecay(st.tables, Decay(pid, w, c, front)), InDecay(pid), None), infos[o + j], o + j);
      PutDecayAppend(st.tables, pid, w, c, front, [NormEntry(es[j - 1])]);
      NormEntriesPrefix(es, j);
    }
  }

  /** A block header read at `o` and the entry lines after it: the block
      with those entries, normalized. */
  lemma {:induction false} BlockRun(st: State, infos: seq<LineInfo>, o: nat, title: string, c: Option<string>, es: seq<Entry>)
    requires st.error.None?
    requires ReadFrom(infos, o + 1, es) && infos[o] == BlockHeader(title, c)
    ensures Run(st, infos, o, o + 1 + |es|)
            == State(PutBlock(st.tables, Block(title, c, NormEntries(es))), InBlock(title), None)
  {
    BlockRunPrefix(st, infos, o, title, c, es, |es|);
    assert es[..|es|] == es;
  }

  /** A decay header read at `o`, with a float width, and the entry lines
      after it: the decay with those entries, normalized. */
  lemma {:induction false} DecayRun(st: State, infos: seq<LineInfo>, o: nat, pid: int, w: string, c: Option<string>, es: seq<Entry>)
    requires st.error.None? && IsPyFloat(w)
    requires ReadFrom(infos, o + 1, es) && infos[o] == DecayHeader(Some((pid, w)), c)
    ensures Run(st, infos, o, o + 1 + |es|)
            == State(PutDecay(st.tables, Decay(pid, w, c, NormEntries(es))), InDecay(pid), None)
  {
    DecayRunPrefix(st, infos, o, pid, w, c, es, |es|);
    assert es[..|es|] == es;
  }

  // ---------------------------------------------------------------------
  // Whole files

  /** The blocks under `keys`, in that order, as reading their sections
      stores them, and no decays. */
  function BlocksOf(t: Tables, keys: seq<string>): Tables
    requires forall k :: k in keys ==> k in t.blocks
  {
    Tables(keys, map k | k in keys :: NormBlock(t.blocks[k]), [], map[])
  }

  /** The dictionaries `base` with the decays under `keys`, in that order,
      as reading their sections stores them. */
  function DecaysOf(t: Tables, base: Tables, keys: seq<int>): Tables
    requires forall k :: k in keys ==> k in t.decays
  {
    base.(decayKeys := keys, decays := map k | k in keys :: NormDecay(t.decays[k]))
  }

  /** The dictionaries `base` after the blocks under `keys`, normalized,
      are stored one after the other. */
  function PutBlocks(base: Tables, t: Tables, keys: seq<string>): Tables
    requires forall k :: k in keys ==> k in t.blocks
    decreases |keys|
  {
    if keys == [] then base
    else PutBlock(PutBlocks(base, t, keys[..|keys| - 1]), NormBlock(t.blocks[keys[|keys| - 1]]))
  }

  /** The dictionaries `base` after the decays under `keys`, normalized,
      are stored one after the other. */
  function PutDecays(base: Tables, t: Tables, keys: seq<int>): Tables
    requires forall k :: k in keys ==> k in t.decays
    decreases |keys|
  {
    if keys == [] then base
    else
      var k := keys[|keys| - 1];
      assert k in keys;
      PutDecay(PutDecays(base, t, keys[..|keys| - 1]), NormDecay(t.decays[k]))
  }

  /** One more block section read: its block is added last. */
  lemma {:induction false} BlocksOfSnoc(t: Tables, keys: seq<string>, k: string)
    requires (forall j :: j in keys ==> j in t.blocks) && k in t.blocks && k !in keys
    requires t.blocks[k].title == k
    ensures PutBlock(BlocksOf(t, keys), NormBlock(t.blocks[k])) == BlocksOf(t, keys + [k])
  {
    var r := PutBlock(BlocksOf(t, keys), NormBlock(t.blocks[k]));
    assert r.blocks == BlocksOf(t, keys + [k]).blocks;
  }

  /** One more decay section read: its decay is added last. */
  lemma {:induction false} DecaysOfSnoc(t: Tables, base: Tables, keys: seq<int>, k: int)
    requires (forall j :: j in keys ==> j in t.decays) && k in t.decays && k !in keys
    requires t.decays[k].pdgid == k
    ensures PutDecay(DecaysOf(t, base, keys), NormDecay(t.decays[k])) == DecaysOf(t, base, keys + [k])
  {
    var r := PutDecay(DecaysOf(t, base, keys), NormDecay(t.decays[k]));
    assert r.decays == DecaysOf(t, base, keys + [k]).decays;
  }

  /** The last key of distinct keys is not among the others. */
  lemma {:induction false} DistinctSnoc<K>(keys: seq<K>)
    requires keys != [] && Distinct(keys)
    ensures Distinct(keys[..|keys| - 1]) && keys[|keys| - 1] !in keys[..|keys| - 1]
  {
  }

  /** A block section read at `o`: its header, then its entries. */
  predicate BlockAt(infos: seq<LineInfo>, o: nat, b: Block) {
    o < |infos| && infos[o] == BlockHeader(b.title, NormHeaderComment(b.comment)) && ReadFrom(infos, o + 1, b.entries)
  }

  /** A decay section read at `o`. */
  predicate DecayAt(infos: seq<LineInfo>, o: nat, d: Decay) {
    && o < |infos| && infos[o] == DecayHeader(Some((d.pdgid, d.width)), NormHeaderComment(d.comment))
    && ReadFrom(infos, o + 1, d.entries)
  }

  lemma {:induction false} WithinSplit<T>(whole: seq<T>, o: nat, a: seq<T>, b: seq<T>)
    requires Within(whole, o, a + b)
    ensures Within(whole, o, a) && Within(whole, o + |a|, b)
  {
    assert whole[o..o + |a|] == (a + b)[..|a|];
    assert whole[o + |a|..o + |a| + |b|] == (a + b)[|a|..];
  }

  /** Line `i` of the lines, read, is `infos[i]`. */
  predicate ClassifiedAt(lines: seq<string>, infos: seq<LineInfo>, i: int) {
    0 <= i < |lines| && i < |infos| && infos[i] == Classify(lines[i])
  }

  /** `infos` is the lines, read one by one. */
  predicate Classified(lines: seq<string>, infos: seq<LineInfo>) {
    |infos| == |lines| && forall i {:trigger ClassifiedAt(lines, infos, i)} :: 0 <= i < |lines| ==> ClassifiedAt(lines, infos, i)
  }

  lemma {:induction false} ClassifiedAll(lines: seq<string>)
    ensures Classified(lines, ClassifyAll(lines))
  {
    forall i | 0 <= i < |lines| ensures ClassifiedAt(lines, ClassifyAll(lines), i) {
      ClassifyAllAt(lines, i);
    }
  }

  /** A written entry line at position `i` of the lines, read. */
  lemma {:induction false} EntryLineAt(lines: seq<string>, infos: seq<LineInfo>, i: nat, e: Entry)
    requires Classified(lines, infos) && i < |lines|
    requires WritableEntry(e) && lines[i] == RenderEntry(e) + "\n"
    ensures ReadsAs(infos[i], e)
  {
    assert ClassifiedAt(lines, infos, i);
    EntryLineRead(e);
  }

  /** Written entry lines within the lines, read: each adds its entry. */
  lemma {:induction false} EntryLinesRead(lines: seq<string>, infos: seq<LineInfo>, o: nat, es: seq<Entry>)
    requires Classified(lines, infos)
    requires WritableEntries(es) && Within(lines, o, EntryLines(es))
    ensures ReadFrom(infos, o, es)
  {
    forall e | 0 <= e < |es| ensures ReadAt(infos, o, es, e) {
      EntryLineWithin(lines, o, es, e);
      EntryLineAt(lines, infos, o + e, es[e]);
    }
  }

  /** Entry line `e` of written entry lines within the lines. */
  lemma {:induction false} EntryLineWithin(lines: seq<string>, o: nat, es: seq<Entry>, e: nat)
    requires e < |es| && WritableEntries(es) && Within(lines, o, EntryLines(es))
    ensures o + e < |lines| && lines[o + e] == RenderEntry(es[e]) + "\n"
    ensures WritableEntry(es[e])
  {
    var ls := EntryLines(es);
    assert lines[o + e] == lines[o..o + |ls|][e] == ls[e];
    EntryLinesAt(es, e);
  }

  /** A section within the lines: its first line, then the rest. */
  lemma {:induction false} SectionSplit(lines: seq<string>, o: nat, head: string, rest: seq<string>)
    requires Within(lines, o, [head] + rest)
    ensures o < |lines| && lines[o] == head && Within(lines, o + 1, rest)
  {
    WithinSplit(lines, o, [head], rest);
    assert lines[o] == lines[o..o + 1][0];
  }

  /** A written block header at position `o` of the lines, read. */
  lemma {:induction false} BlockHeaderAt(lines: seq<string>, infos: seq<LineInfo>, o: nat, b: Block)
    requires Classified(lines, infos) && o < |lines|
    requires WritableBlock(b) && lines[o] == RenderBlockHeader(b) + "\n"
    ensures infos[o] == BlockHeader(b.title, NormHeaderComment(b.comment))
  {
    assert ClassifiedAt(lines, infos, o);
    BlockHeaderRead(b);
  }

  /** A written decay header at position `o` of the lines, read. */
  lemma {:induction false} DecayHeaderAt(lines: seq<string>, infos: seq<LineInfo>, o: nat, d: Decay)
    requires Classified(lines, infos) && o < |lines|
    requires WritableDecay(d) && lines[o] == RenderDecayHeader(d) + "\n"
    ensures infos[o] == DecayHeader(Some((d.pdgid, d.width)), NormHeaderComment(d.comment))
  {
    assert ClassifiedAt(lines, infos, o);
    DecayHeaderRead(d);
  }

  /** A written block section within the lines, read: the header names
      the block and carries its comment, and the entry lines follow. */
  lemma {:induction false} BlockSectionRead(lines: seq<string>, infos: seq<LineInfo>, o: nat, t: Tables, k: string)
    requires Classified(lines, infos)
    requires k in t.blocks && BlocksWritable(t) && Within(lines, o, BlockSection(t.blocks[k]))
    ensures BlockAt(infos, o, t.blocks[k])
  {
    var b := t.blocks[k];
    assert WritableBlock(b);
    SectionSplit(lines, o, RenderBlockHeader(b) + "\n", EntryLines(b.entries));
    BlockHeaderAt(lines, infos, o, b);
    EntryLinesRead(lines, infos, o + 1, b.entries);
  }

  /** A written decay section within the lines, read. */
  lemma {:induction false} DecaySectionRead(lines: seq<string>, infos: seq<LineInfo>, o: nat, t: Tables, k: int)
    requires Classified(lines, infos)
    requires k in t.decays && DecaysWritable(t) && Within(lines, o, DecaySection(t.decays[k]))
    ensures DecayAt(infos, o, t.decays[k])
  {
    var d := t.decays[k];
    assert WritableDecay(d);
    SectionSplit(lines, o, RenderDecayHeader(d) + "\n", EntryLines(d.entries));
    DecayHeaderAt(lines, infos, o, d);
    EntryLinesRead(lines, infos, o + 1, d.entries);
  }

  /** The sections of the blocks under `keys` read one after the other from `o`. */
  predicate BlocksAt(t: Tables, keys: seq<string>, infos: seq<LineInfo>, o: nat)
    requires forall k :: k in keys ==> k in t.blocks
    decreases |keys|
  {
    keys == [] ||
    var front := keys[..|keys| - 1];
    BlocksAt(t, front, infos, o) && BlockAt(infos, o + BlockLineCount(t, front), t.blocks[keys[|keys| - 1]])
  }

  /** The sections of the decays under `keys` read one after the other from `o`. */
  predicate DecaysAt(t: Tables, keys: seq<int>, infos: seq<LineInfo>, o: nat)
    requires forall k :: k in keys ==> k in t.decays
    decreases |keys|
  {
    keys == [] ||
    var front := keys[..|keys| - 1];
    DecaysAt(t, front, infos, o) && keys[|keys| - 1] in t.decays
    && DecayAt(infos, o + DecayLineCount(t, front), t.decays[keys[|keys| - 1]])
  }

  /** The written sections of all but the last block sit where the whole
      run of sections starts. */
  lemma {:induction false} BlockLinesFront(t: Tables, keys: seq<string>, lines: seq<string>, o: nat)
    requires keys != [] && (forall k :: k in keys ==> k in t.blocks)
    requires Within(lines, o, BlockLines(t, keys))
    ensures Within(lines, o, BlockLines(t, keys[..|keys| - 1]))
  {
    var k := keys[|keys| - 1];
    assert k in keys;
    var a := BlockLines(t, keys[..|keys| - 1]);
    var sec := BlockSection(t.blocks[k]);
    assert BlockLines(t, keys) == a + sec;
    WithinSplit(lines, o, a, sec);
  }

  /** The written section of the last block follows the sections of the
      blocks before it. */
  lemma {:induction false} BlockLinesLast(t: Tables, keys: seq<string>, lines: seq<string>, o: nat)
    requires keys != [] && (forall k :: k in keys ==> k in t.blocks)
    requires Within(lines, o, BlockLines(t, keys))
    ensures Within(lines, o + BlockLineCount(t, keys[..|keys| - 1]), BlockSection(t.blocks[keys[|keys| - 1]]))
  {
    var front := keys[..|keys| - 1];
    var k := keys[|keys| - 1];
    assert k in keys;
    assert Within(lines, o + BlockLineCount(t, front), BlockSection(t.blocks[k])) by {
      var a := BlockLines(t, front);
      var sec := BlockSection(t.blocks[k]);
      assert Within(lines, o, a + sec) by {
        assert BlockLines(t, keys) == a + sec;
      }
      WithinSplit(lines, o, a, sec);
      BlockLinesCount(t, front);
    }
  }

  /** The written sections of all but the last decay sit where the whole
      run of sections starts. */
  lemma {:induction false} DecayLinesFront(t: Tables, keys: seq<int>, lines: seq<string>, o: nat)
    requires keys != [] && (forall k :: k in keys ==> k in t.decays)
    requires Within(lines, o, DecayLines(t, keys))
    ensures Within(lines, o, DecayLines(t, keys[..|keys| - 1]))
  {
    var k := keys[|keys| - 1];
    assert k in keys;
    var a := DecayLines(t, keys[..|keys| - 1]);
    var sec := DecaySection(t.decays[k]);
    assert DecayLines(t, keys) == a + sec;
    WithinSplit(lines, o, a, sec);
  }

  /** The written section of the last decay follows the sections of the
      decays before it. */
  lemma {:induction false} DecayLinesLast(t: Tables, keys: seq<int>, lines: seq<string>, o: nat)
    requires keys != [] && (forall k :: k in keys ==> k in t.decays)
    requires Within(lines, o, DecayLines(t, keys))
    ensures keys[|keys| - 1] in t.decays
    ensures Within(lines, o + DecayLineCount(t, keys[..|keys| - 1]), DecaySection(t.decays[keys[|keys| - 1]]))
  {
    var front := keys[..|keys| - 1];
    var k := keys[|keys| - 1];
    assert k in keys;
    assert Within(lines, o + DecayLineCount(t, front), DecaySection(t.decays[k])) by {
      var a := DecayLines(t, front);
      var sec := DecaySection(t.decays[k]);
      assert Within(lines, o, a + sec) by {
        assert DecayLines(t, keys) == a + sec;
      }
      WithinSplit(lines, o, a, sec);
      DecayLinesCount(t, front);
    }
  }

  /** One more section after those of the front keys. */
  lemma {:induction false} BlocksAtSnoc(t: Tables, keys: seq<string>, infos: seq<LineInfo>, o: nat)
    requires keys != [] && (forall k :: k in keys ==> k in t.blocks)
    requires BlocksAt(t, keys[..|keys| - 1], infos, o)
    requires BlockAt(infos, o + BlockLineCount(t, keys[..|keys| - 1]), t.blocks[keys[|keys| - 1]])
    ensures BlocksAt(t, keys, infos, o)
  {
  }

  /** One more section after those of the front keys. */
  lemma {:induction false} DecaysAtSnoc(t: Tables, keys: seq<int>, infos: seq<LineInfo>, o: nat)
    requires keys != [] && (forall k :: k in keys ==> k in t.decays) && keys[|keys| - 1] in t.decays
    requires DecaysAt(t, keys[..|keys| - 1], infos, o)
    requires DecayAt(infos, o + DecayLineCount(t, keys[..|keys| - 1]), t.decays[keys[|keys| - 1]])
    ensures DecaysAt(t, keys, infos, o)
  {
  }

  /** The section of the last key, read after those of the keys before it. */
  lemma {:induction false} BlockLinesStep(t: Tables, keys: seq<string>, lines: seq<string>, infos: seq<LineInfo>, o: nat)
    requires Classified(lines, infos)
    requires keys != [] && (forall k :: k in keys ==> k in t.blocks) && BlocksWritable(t)
    requires keys[|keys| - 1] in t.blocks
    requires Within(lines, o + BlockLineCount(t, keys[..|keys| - 1]), BlockSection(t.blocks[keys[|keys| - 1]]))
    requires BlocksAt(t, keys[..|keys| - 1], infos, o)
    ensures BlocksAt(t, keys, infos, o)
  {
    var n := o + BlockLineCount(t, keys[..|keys| - 1]);
    assert BlockAt(infos, n, t.blocks[keys[|keys| - 1]]) by {
      BlockSectionRead(lines, infos, n, t, keys[|keys| - 1]);
    }
    BlocksAtSnoc(t, keys, infos, o);
  }

  /** The written block sections, read, are the sections of those blocks. */
  lemma {:induction false} BlockLinesRead(t: Tables, keys: seq<string>, lines: seq<string>, infos: seq<LineInfo>, o: nat)
    requires Classified(lines, infos)
    requires (forall k :: k in keys ==> k in t.blocks) && BlocksWritable(t)
    requires Within(lines, o, BlockLines(t, keys))
    ensures BlocksAt(t, keys, infos, o)
    decreases |keys|
  {
    if keys != [] {
      BlockLinesFront(t, keys, lines, o);
      BlockLinesRead(t, keys[..|keys| - 1], lines, infos, o);
      BlockLinesLast(t, keys, lines, o);
      BlockLinesStep(t, keys, lines, infos, o);
    }
  }

  /** The section of the last key, read after those of the keys before it. */
  lemma {:induction false} DecayLinesStep(t: Tables, keys: seq<int>, lines: seq<string>, infos: seq<LineInfo>, o: nat)
    requires Classified(lines, infos)
    requires keys != [] && (forall k :: k in keys ==> k in t.decays) && DecaysWritable(t)
    requires keys[|keys| - 1] in t.decays
    requires Within(lines, o + DecayLineCount(t, keys[..|keys| - 1]), DecaySection(t.decays[keys[|keys| - 1]]))
    requires DecaysAt(t, keys[..|keys| - 1], infos, o)
    ensures DecaysAt(t, keys, infos, o)
  {
    var n := o + DecayLineCount(t, keys[..|keys| - 1]);
    assert DecayAt(infos, n, t.decays[keys[|keys| - 1]]) by {
      DecaySectionRead(lines, infos, n, t, keys[|keys| - 1]);
    }
    DecaysAtSnoc(t, keys, infos, o);
  }

  /** The written decay sections, read, are the sections of those decays. */
  lemma {:induction false} DecayLinesRead(t: Tables, keys: seq<int>, lines: seq<string>, infos: seq<LineInfo>, o: nat)
    requires Classified(lines, infos)
    requires (forall k :: k in keys ==> k in t.decays) && DecaysWritable(t)
    requires Within(lines, o, DecayLines(t, keys))
    ensures DecaysAt(t, keys, infos, o)
    decreases |keys|
  {
    if keys != [] {
      DecayLinesFront(t, keys, lines, o);
      DecayLinesRead(t, keys[..|keys| - 1], lines, infos, o);
      DecayLinesLast(t, keys, lines, o);
      DecayLinesStep(t, keys, lines, infos, o);
    }
  }

  /** A run that reached `s1` at line `m` and then reads a block section
      stores that block. */
  lemma {:induction false} BlockSectionStep(st: State, infos: seq<LineInfo>, o: nat, m: nat, s1: State, b: Block)
    requires o <= m && BlockAt(infos, m, b)
    requires Run(st, infos, o, m) == s1 && s1.error.None?
    ensures Run(st, infos, o, m + 1 + |b.entries|) == State(PutBlock(s1.tables, NormBlock(b)), InBlock(b.title), None)
  {
    BlockRun(s1, infos, m, b.title, NormHeaderComment(b.comment), b.entries);
    RunSplit(st, infos, o, m, m + 1 + |b.entries|);
  }

  /** A run that reached `s1` at line `m` and then reads a decay section
      stores that decay. */
  lemma {:induction false} DecaySectionStep(st: State, infos: seq<LineInfo>, o: nat, m: nat, s1: State, d: Decay)
    requires o <= m && DecayAt(infos, m, d) && IsPyFloat(d.width)
    requires Run(st, infos, o, m) == s1 && s1.error.None?
    ensures Run(st, infos, o, m + 1 + |d.entries|) == State(PutDecay(s1.tables, NormDecay(d)), InDecay(d.pdgid), None)
  {
    DecayRun(s1, infos, m, d.pdgid, d.width, NormHeaderComment(d.comment), d.entries);
    RunSplit(st, infos, o, m, m + 1 + |d.entries|);
  }

  /** The sections of the blocks under `keys`, parsed from an object with
      no records, store those blocks, normalized, in that order, and raise
      nothing. */
  lemma {:induction false} BlocksRun(t: Tables, keys: seq<string>, infos: seq<LineInfo>, o: nat, hi: nat, st: State)
    requires forall k :: k in keys ==> k in t.blocks
    requires BlocksAt(t, keys, infos, o) && hi == o + BlockLineCount(t, keys) <= |infos|
    requires st.error.None?
    ensures Run(st, infos, o, hi).error.None? && Run(st, infos, o, hi).tables == PutBlocks(st.tables, t, keys)
    decreases |keys|
  {
    if keys != [] {
      var front := keys[..|keys| - 1];
      var b := t.blocks[keys[|keys| - 1]];
      var m := o + BlockLineCount(t, front);
      BlocksRun(t, front, infos, o, m, st);
      BlockSectionStep(st, infos, o, m, Run(st, infos, o, m), b);
    }
  }

  /** The width of a writable decay is a float. */
  lemma {:induction false} WritableWidth(t: Tables, k: int)
    requires k in t.decays && DecaysWritable(t)
    ensures IsPyFloat(t.decays[k].width)
  {
    assert WritableDecay(t.decays[k]);
  }

  /** The sections of the decays under `keys`, parsed after the blocks,
      store those decays, normalized, in that order, and raise nothing. */
  lemma {:induction false} DecaysRun(t: Tables, keys: seq<int>, infos: seq<LineInfo>, o: nat, hi: nat, st: State)
    requires (forall k :: k in keys ==> k in t.decays) && DecaysWritable(t)
    requires DecaysAt(t, keys, infos, o) && hi == o + DecayLineCount(t, keys) <= |infos|
    requires st.error.None?
    ensures Run(st, infos, o, hi).error.None? && Run(st, infos, o, hi).tables == PutDecays(st.tables, t, keys)
    decreases |keys|
  {
    if keys != [] {
      var front := keys[..|keys| - 1];
      var k := keys[|keys| - 1];
      assert k in keys;
      var d := t.decays[k];
      var m := o + DecayLineCount(t, front);
      DecaysRun(t, front, infos, o, m, st);
      WritableWidth(t, k);
      assert hi == m + 1 + |d.entries|;
      assert PutDecays(st.tables, t, keys) == PutDecay(PutDecays(st.tables, t, front), NormDecay(d));
      DecaySectionStep(st, infos, o, m, Run(st, infos, o, m), d);
    }
  }

  /** Blocks under distinct keys, each stored under its own title, put one
      after the other into empty dictionaries: the blocks in that order. */
  lemma {:induction false} PutBlocksInOrder(t: Tables, keys: seq<string>)
    requires forall k :: k in keys ==> k in t.blocks && t.blocks[k].title == k
    requires Distinct(keys)
    ensures PutBlocks(Empty, t, keys) == BlocksOf(t, keys)
    decreases |keys|
  {
    if keys == [] {
      assert BlocksOf(t, []) == Empty;
    } else {
      var front := keys[..|keys| - 1];
      var k := keys[|keys| - 1];
      DistinctSnoc(keys);
      PutBlocksInOrder(t, front);
      assert front + [k] == keys;
      BlocksOfSnoc(t, front, k);
    }
  }

  /** Decays under distinct keys, each stored under its own id, put one
      after the other into dictionaries without decays: the decays in that
      order. */
  lemma {:induction false} PutDecaysInOrder(t: Tables, base: Tables, keys: seq<int>)
    requires forall k :: k in keys ==> k in t.decays && t.decays[k].pdgid == k
    requires Distinct(keys)
    ensures PutDecays(DecaysOf(t, base, []), t, keys) == DecaysOf(t, base, keys)
    decreases |keys|
  {
    if keys != [] {
      var front := keys[..|keys| - 1];
      var k := keys[|keys| - 1];
      DistinctSnoc(keys);
      PutDecaysInOrder(t, base, front);
      assert front + [k] == keys;
      DecaysOfSnoc(t, base, front, k);
    }
  }

  /** Reading all blocks and then all decays in their orders stores the
      normalized dictionaries. */
  lemma {:induction false} ReadOrderIsNormalized(t: Tables)
    requires WellFormed(t)
    ensures DecaysOf(t, BlocksOf(t, t.blockKeys), t.decayKeys) == Normalized(t)
  {
    var r := DecaysOf(t, BlocksOf(t, t.blockKeys), t.decayKeys);
    assert r.blocks == Normalized(t).blocks;
    assert forall k :: k in t.decayKeys <==> k in t.decays;
    assert r.decays == Normalized(t).decays;
  }

  /** The written lines, read: the block sections from the first line on,
      then the decay sections. */
  lemma {:induction false} WrittenSectionsRead(t: Tables, lines: seq<string>, infos: seq<LineInfo>)
    requires Writable(t) && Classified(lines, infos)
    requires lines == BlockLines(t, t.blockKeys) + DecayLines(t, t.decayKeys)
    ensures BlocksAt(t, t.blockKeys, infos, 0)
    ensures DecaysAt(t, t.decayKeys, infos, BlockLineCount(t, t.blockKeys))
    ensures |infos| == BlockLineCount(t, t.blockKeys) + DecayLineCount(t, t.decayKeys)
  {
    WrittenLayout(t, lines);
    BlockLinesRead(t, t.blockKeys, lines, infos, 0);
    DecayLinesRead(t, t.decayKeys, lines, infos, BlockLineCount(t, t.blockKeys));
  }

  /** Where the block part and the decay part sit in the written lines. */
  lemma {:induction false} WrittenLayout(t: Tables, lines: seq<string>)
    requires WellFormed(t)
    requires lines == BlockLines(t, t.blockKeys) + DecayLines(t, t.decayKeys)
    ensures Within(lines, 0, BlockLines(t, t.blockKeys))
    ensures Within(lines, BlockLineCount(t, t.blockKeys), DecayLines(t, t.decayKeys))
    ensures |lines| == BlockLineCount(t, t.blockKeys) + DecayLineCount(t, t.decayKeys)
  {
    var bl := BlockLines(t, t.blockKeys);
    var dl := DecayLines(t, t.decayKeys);
    assert Within(lines, 0, bl + dl);
    WithinSplit(lines, 0, bl, dl);
    BlockLinesCount(t, t.blockKeys);
    DecayLinesCount(t, t.decayKeys);
  }

  /** Reading the block sections, then the decay sections, of `t` into an
      object with no records stores them in those orders and raises nothing. */
  lemma {:induction false} WrittenSectionsRun(t: Tables, infos: seq<LineInfo>, st: State)
    requires WellFormed(t) && DecaysWritable(t) && st == Start(Empty)
    requires BlocksAt(t, t.blockKeys, infos, 0)
    requires DecaysAt(t, t.decayKeys, infos, BlockLineCount(t, t.blockKeys))
    requires |infos| == BlockLineCount(t, t.blockKeys) + DecayLineCount(t, t.decayKeys)
    ensures Run(st, infos, 0, |infos|).error.None?
    ensures Run(st, infos, 0, |infos|).tables == PutDecays(PutBlocks(Empty, t, t.blockKeys), t, t.decayKeys)
  {
    var n := BlockLineCount(t, t.blockKeys);
    BlocksRun(t, t.blockKeys, infos, 0, n, st);
    var s1 := Run(st, infos, 0, n);
    DecaysRun(t, t.decayKeys, infos, n, |infos|, s1);
    RunSplit(st, infos, 0, n, |infos|);
  }

  /** Storing the normalized blocks, then the normalized decays, of
      well-formed dictionaries in their orders gives their normalization. */
  lemma {:induction false} PutAllInOrder(t: Tables)
    requires WellFormed(t)
    ensures PutDecays(PutBlocks(Empty, t, t.blockKeys), t, t.decayKeys) == Normalized(t)
  {
    PutBlocksInOrder(t, t.blockKeys);
    var base := BlocksOf(t, t.blockKeys);
    assert DecaysOf(t, base, []) == base;
    PutDecaysInOrder(t, base, t.decayKeys);
    ReadOrderIsNormalized(t);
  }

  /** The round trip: what `write` emits for writable dictionaries, read by
      `process_input` into a new object, raises nothing and rebuilds the same
      blocks and decays, in the same orders, up to the normalization of
      comments. */
  lemma {:induction false} WriteThenRead(t: Tables)
    requires Writable(t)
    ensures ParseLines(Empty, WrittenLines(t)).error.None?
    ensures ParseLines(Empty, WrittenLines(t)).tables == Normalized(t)
  {
    var lines := WrittenLines(t);
    var infos := ClassifyAll(lines);
    ClassifiedAll(lines);
    WrittenSectionsRead(t, lines, infos);
    WrittenSectionsRun(t, infos, Start(Empty));
    PutAllInOrder(t);
  }

  // ---------------------------------------------------------------------
  // Each written string is one line

  /** A line as `readlines` returns it: a newline at its end and nowhere else. */
  predicate IsLine(s: string) {
    |s| > 0 && s[|s| - 1] == '\n' && '\n' !in s[..|s| - 1]
  }

  predicate AllLines(ls: seq<string>) {
    forall k :: 0 <= k < |ls| ==> IsLine(ls[k])
  }

  lemma {:induction false} NewlineEndsLine(x: string)
    requires '\n' !in x
    ensures IsLine(x + "\n")
  {
    assert (x + "\n")[..|x|] == x;
  }

  lemma {:induction false} AllLinesJoin(a: seq<string>, b: seq<string>)
    requires AllLines(a) && AllLines(b)
    ensures AllLines(a + b)
  {
    forall k | 0 <= k < |a + b| ensures IsLine((a + b)[k]) {
      if k < |a| {
        assert (a + b)[k] == a[k];
      } else {
        assert (a + b)[k] == b[k - |a|];
      }
    }
  }

  /** A token holds no newline. */
  lemma {:induction false} TokenNoNewline(t: string)
    requires IsToken(t)
    ensures '\n' !in t
  {
    forall k | 0 <= k < |t| ensures t[k] != '\n' {
      assert !IsSpace(t[k]);
    }
  }

  /** Canonical values are written without a newline. */
  lemma {:induction false} CanonicalNoNewline(vs: seq<Value>)
    requires AllCanonical(vs)
    ensures forall k :: 0 <= k < |vs| ==> '\n' !in RenderValue(vs[k])
    decreases |vs|
  {
    if vs != [] {
      CanonicalNoNewline(vs[1..]);
      TokenNoNewline(RenderValue(vs[0]));
      forall k | 0 <= k < |vs| ensures '\n' !in RenderValue(vs[k]) {
        if k > 0 {
          assert vs[k] == vs[1..][k - 1];
        }
      }
    }
  }

  /** The entry lines of writable entries are lines. */
  lemma {:induction false} EntryLinesAreLines(es: seq<Entry>)
    requires WritableEntries(es)
    ensures AllLines(EntryLines(es))
  {
    forall k | 0 <= k < |es| ensures IsLine(EntryLines(es)[k]) {
      assert WritableEntry(es[k]);
      EntryLinesAt(es, k);
      CanonicalNoNewline(es[k].values);
      RenderValuesNoNewline(es[k].values);
      RenderEntryLayout(es[k]);
      NewlineEndsLine(RenderEntry(es[k]));
    }
  }

  lemma {:induction false} BlockSectionLines(b: Block)
    requires WritableBlock(b)
    ensures AllLines(BlockSection(b))
  {
    TokenNoNewline(b.title);
    RenderBlockHeaderLayout(b);
    NewlineEndsLine(RenderBlockHeader(b));
    EntryLinesAreLines(b.entries);
    AllLinesJoin([RenderBlockHeader(b) + "\n"], EntryLines(b.entries));
  }

  lemma {:induction false} DecaySectionLines(d: Decay)
    requires WritableDecay(d)
    ensures AllLines(DecaySection(d))
  {
    WidthNoHash(d.width);
    RenderDecayHeaderLayout(d);
    NewlineEndsLine(RenderDecayHeader(d));
    EntryLinesAreLines(d.entries);
    AllLinesJoin([RenderDecayHeader(d) + "\n"], EntryLines(d.entries));
  }

  lemma {:induction false} BlockLinesAreLines(t: Tables, keys: seq<string>)
    requires (forall k :: k in keys ==> k in t.blocks) && BlocksWritable(t)
    ensures AllLines(BlockLines(t, keys))
    decreases |keys|
  {
    if keys != [] {
      var b := t.blocks[keys[|keys| - 1]];
      assert WritableBlock(b);
      BlockLinesAreLines(t, keys[..|keys| - 1]);
      BlockSectionLines(b);
      AllLinesJoin(BlockLines(t, keys[..|keys| - 1]), BlockSection(b));
    }
  }

  lemma {:induction false} DecayLinesAreLines(t: Tables, keys: seq<int>)
    requires (forall k :: k in keys ==> k in t.decays) && DecaysWritable(t)
    ensures AllLines(DecayLines(t, keys))
    decreases |keys|
  {
    if keys != [] {
      var k := keys[|keys| - 1];
      assert k in keys;
      var d := t.decays[k];
      assert WritableDecay(d);
      DecayLinesAreLines(t, keys[..|keys| - 1]);
      DecaySectionLines(d);
      AllLinesJoin(DecayLines(t, keys[..|keys| - 1]), DecaySection(d));
    }
  }

  /** Every string `write` passes to `fout.write` for writable dictionaries
      ends with the only newline it holds, so reading the file back with
      `readlines` gives exactly these strings: the lines that WriteThenRead
      parses. */
  lemma {:induction false} WrittenLinesAreLines(t: Tables)
    requires Writable(t)
    ensures forall k :: 0 <= k < |WrittenLines(t)| ==>
              var s := WrittenLines(t)[k];
              |s| > 0 && s[|s| - 1] == '\n' && '\n' !in s[..|s| - 1]
  {
    BlockLinesAreLines(t, t.blockKeys);
    DecayLinesAreLines(t, t.decayKeys);
    AllLinesJoin(BlockLines(t, t.blockKeys), DecayLines(t, t.decayKeys));
    assert AllLines(WrittenLines(t));
  }
}
