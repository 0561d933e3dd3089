/**
 * The line classifier `LHA.linetype`. Its four anchored regular expressions
 * are written as predicates on the line, each holding exactly when
 * `re.findall` with that pattern finds a match.
 */
module Lines {
  import opened Text
  import opened Matching

  datatype LineKind = BlockLine | DecayLine | EntryLine | CommentLine | UnknownLine

  /** `(?i)^(\bKW\b)` for an upper-case keyword: the keyword in any case at
      column 0, followed by the end of the line or a non-word character. */
  predicate KeywordAtStart(l: string, kw: string) {
    && |kw| <= |l|
    && (forall k :: 0 <= k < |kw| ==> Upper(l[k]) == kw[k])
    && (|l| == |kw| || !IsWordChar(l[|kw|]))
  }

  /** `^\s*(\d|[\+\-]\d)`: after leading whitespace, a digit or a sign and a digit. */
  predicate StartsEntry(l: string) {
    var p := SpanEnd(l, 0, IsSpace);
    p < |l| && (IsDigit(l[p]) || (IsSign(l[p]) && p + 1 < |l| && IsDigit(l[p + 1])))
  }

  /** `^\s*(\#)`: after leading whitespace, a `#`. */
  predicate StartsComment(l: string) {
    var p := SpanEnd(l, 0, IsSpace);
    p < |l| && l[p] == '#'
  }

  predicate MatchesLine(l: string, k: LineKind) {
    match k
    case BlockLine => KeywordAtStart(l, "BLOCK")
    case DecayLine => KeywordAtStart(l, "DECAY")
    case EntryLine => StartsEntry(l)
    case CommentLine => StartsComment(l)
    case UnknownLine => false
  }

  /** `linetype`: the class whose pattern matches the line, UNKNOWN when none does. */
  function LineType(l: string): (k: LineKind)
    ensures k != UnknownLine ==> MatchesLine(l, k)
    ensures k == UnknownLine ==> forall j :: !MatchesLine(l, j)
  {
    if KeywordAtStart(l, "BLOCK") then BlockLine
    else if KeywordAtStart(l, "DECAY") then DecayLine
    else if StartsEntry(l) then EntryLine
    else if StartsComment(l) then CommentLine
    else UnknownLine
  }

  /** The first non-whitespace character decides: a keyword starts with a letter,
      an entry with a digit or sign, a comment with `#`. */
  lemma {:induction false} LineClassesExclusive(l: string)
    ensures forall j1, j2 :: MatchesLine(l, j1) && MatchesLine(l, j2) ==> j1 == j2
  {
    if |l| > 0 {
      var p := SpanEnd(l, 0, IsSpace);
      if Upper(l[0]) == 'B' || Upper(l[0]) == 'D' {
        assert !IsSpace(l[0]);
        SpanEndIs(l, 0, 0, IsSpace);
        assert !IsDigit(l[0]) && !IsSign(l[0]) && l[0] != '#';
      }
    }
  }

  /** Since at most one pattern matches, the source's last-match loop gives the
      same class in every iteration order of its dictionary. */
  lemma {:induction false} LineTypeAnyOrder(l: string, order: seq<LineKind>)
    requires BlockLine in order && DecayLine in order && EntryLine in order && CommentLine in order
    ensures LastMatch(order, j => MatchesLine(l, j), UnknownLine) == LineType(l)
  {
    var k := LineType(l);
    LineClassesExclusive(l);
    if k == UnknownLine {
      LastMatchNone(order, j => MatchesLine(l, j), UnknownLine);
    } else {
      LastMatchUnique(order, j => MatchesLine(l, j), UnknownLine, k);
    }
  }
}
