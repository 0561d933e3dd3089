/**
 * The body of the ENTRY branch of `process_input`: the line is split into
 * tokens, each token is classified and converted, and the first COMMENT
 * token ends the scan, the rest of the line from its first `#` becoming the
 * entry's comment.
 */
module Entries {
  import opened Wrappers
  import opened Text
  import opened Tokens
  import opened Records

  /** `line[line.find('#'):]`. Python's slice also runs when `find` returns -1,
      which then keeps only the last character; an entry line that reaches
      this point always holds a `#` (see CommentOfLine). */
  function CommentOf(line: string): string {
    PySuffix(line, Find(line, '#'))
  }

  /** The values a run of tokens contributes: each token's conversion, with
      COMMENT and UNKNOWN tokens contributing nothing. */
  function KeptValues(toks: seq<string>): seq<Value>
    decreases |toks|
  {
    if toks == [] then []
    else match TokenValue(toks[0])
      case Some(v) => [v] + KeptValues(toks[1..])
      case None => KeptValues(toks[1..])
  }

  /** The kept values are exactly the conversions of the tokens that have one. */
  lemma {:induction false} KeptValuesMembers(toks: seq<string>)
    ensures forall v :: v in KeptValues(toks) <==> exists k :: 0 <= k < |toks| && TokenValue(toks[k]) == Some(v)
    decreases |toks|
  {
    if toks != [] {
      var tail := toks[1..];
      KeptValuesMembers(tail);
      forall v ensures v in KeptValues(toks) <==> exists k :: 0 <= k < |toks| && TokenValue(toks[k]) == Some(v) {
        if v in KeptValues(tail) {
          var k :| 0 <= k < |tail| && TokenValue(tail[k]) == Some(v);
          assert TokenValue(toks[k + 1]) == Some(v);
        }
        if exists k :: 0 <= k < |toks| && TokenValue(toks[k]) == Some(v) {
          var k :| 0 <= k < |toks| && TokenValue(toks[k]) == Some(v);
          if k > 0 {
            assert TokenValue(tail[k - 1]) == Some(v);
          }
        }
      }
    }
  }

  /** Values are kept in token order: the values of two runs of tokens are
      the values of the first run followed by those of the second. */
  lemma {:induction false} KeptValuesJoin(a: seq<string>, b: seq<string>)
    ensures KeptValues(a + b) == KeptValues(a) + KeptValues(b)
    decreases |a|
  {
    if a == [] {
      assert a + b == b;
    } else {
      assert (a + b)[0] == a[0];
      assert (a + b)[1..] == a[1..] + b;
      KeptValuesJoin(a[1..], b);
      match TokenValue(a[0])
      case Some(v) =>
        assert [v] + (KeptValues(a[1..]) + KeptValues(b)) == ([v] + KeptValues(a[1..])) + KeptValues(b);
      case None =>
    }
  }

  predicate IsCommentToken(t: string) {
    EntryType(t) == CommentTok
  }

  /** The scan of the entry loop over `toks`, head first: values are kept until
      the first COMMENT token, which stops the scan and sets the comment. */
  function EntryFromTokens(line: string, toks: seq<string>): Entry
    decreases |toks|
  {
    if toks == [] then Entry([], None)
    else if IsCommentToken(toks[0]) then Entry([], Some(CommentOf(line)))
    else
      var rest := EntryFromTokens(line, toks[1..]);
      match TokenValue(toks[0])
      case Some(v) => Entry([v] + rest.values, rest.comment)
      case None => rest
  }

  /** One token of the scan, read from position `i` of the token list. */
  lemma {:induction false} EntryFromTokensAt(line: string, toks: seq<string>, i: nat)
    requires i < |toks|
    ensures IsCommentToken(toks[i]) ==> EntryFromTokens(line, toks[i..]) == Entry([], Some(CommentOf(line)))
    ensures !IsCommentToken(toks[i]) ==>
              var rest := EntryFromTokens(line, toks[i + 1..]);
              EntryFromTokens(line, toks[i..])
              == match TokenValue(toks[i])
                 case Some(v) => Entry([v] + rest.values, rest.comment)
                 case None => rest
  {
    assert toks[i..][0] == toks[i];
    assert toks[i..][1..] == toks[i + 1..];
  }

  /** The tokens before the first COMMENT token, or all of them. */
  predicate ScannedPrefix(toks: seq<string>, n: int) {
    && 0 <= n <= |toks|
    && (forall k :: 0 <= k < n ==> !IsCommentToken(toks[k]))
    && (n < |toks| ==> IsCommentToken(toks[n]))
  }

  /** The entry holds a comment exactly when some token is a COMMENT token,
      and that comment is the line from its first `#`; its values are the
      conversions of the tokens before the first COMMENT token, UNKNOWN
      tokens dropped. */
  lemma {:induction false} EntryFromTokensShape(line: string, toks: seq<string>)
    ensures var e := EntryFromTokens(line, toks);
            && (e.comment.Some? <==> exists k :: 0 <= k < |toks| && IsCommentToken(toks[k]))
            && (e.comment.Some? ==> e.comment.value == CommentOf(line))
            && exists n :: ScannedPrefix(toks, n) && e.values == KeptValues(toks[..n])
    decreases |toks|
  {
    if toks == [] || IsCommentToken(toks[0]) {
      assert toks[..0] == [];
      assert ScannedPrefix(toks, 0);
    } else {
      var tail := toks[1..];
      EntryFromTokensShape(line, tail);
      var rest := EntryFromTokens(line, tail);
      var n' :| ScannedPrefix(tail, n') && rest.values == KeptValues(tail[..n']);
      assert toks[..n' + 1][1..] == tail[..n'];
      assert ScannedPrefix(toks, n' + 1) by {
        forall k | 0 <= k < n' + 1 ensures !IsCommentToken(toks[k]) {
          if k > 0 { assert toks[k] == tail[k - 1]; }
        }
      }
      if exists k :: 0 <= k < |toks| && IsCommentToken(toks[k]) {
        var k :| 0 <= k < |toks| && IsCommentToken(toks[k]);
        assert IsCommentToken(tail[k - 1]);
      }
      if rest.comment.Some? {
        var k :| 0 <= k < |tail| && IsCommentToken(tail[k]);
        assert IsCommentToken(toks[k + 1]);
      }
    }
  }

  /** The entry an ENTRY line becomes (lhatool.py:116-136): a comment exactly
      when some token of the line is a COMMENT token, that comment taken from
      the first `#` of the line, and the values of the tokens before the first
      COMMENT token. */
  function EntryOf(line: string): (e: Entry)
    ensures e.comment.Some? <==> exists k :: 0 <= k < |Split(line)| && IsCommentToken(Split(line)[k])
    ensures e.comment.Some? ==> e.comment.value == CommentOf(line)
    ensures exists n :: ScannedPrefix(Split(line), n) && e.values == KeptValues(Split(line)[..n])
  {
    EntryFromTokensShape(line, Split(line));
    EntryFromTokens(line, Split(line))
  }

  /** Every character of a token is a character of the split text. */
  lemma {:induction false} SplitChars(s: string, c: char)
    ensures (exists k :: 0 <= k < |Split(s)| && c in Split(s)[k]) ==> c in s
    decreases |s|
  {
    if s != [] {
      SplitChars(s[1..], c);
      if !IsSpace(s[0]) {
        var n := SpanEnd(s, 0, IsNonSpace);
        SplitChars(s[n..], c);
        var toks := Split(s);
        if exists k :: 0 <= k < |toks| && c in toks[k] {
          var k :| 0 <= k < |toks| && c in toks[k];
          if k == 0 {
            assert c in s[..n];
          } else {
            assert toks[k] == Split(s[n..])[k - 1];
            assert c in s[n..];
          }
        }
      } else {
        assert Split(s) == Split(s[1..]);
        if c in s[1..] {
          var i :| 0 <= i < |s| - 1 && s[1..][i] == c;
          assert s[i + 1] == c;
        }
      }
    }
  }

  /** An entry comment is the line from its first `#` on: it starts with `#`
      and it holds every character after that point. */
  lemma {:induction false} CommentOfLine(line: string)
    requires EntryOf(line).comment.Some?
    ensures var c := EntryOf(line).comment.value;
            var k := Find(line, '#');
            0 <= k && c == line[k..] && c[0] == '#'
  {
    var toks := Split(line);
    EntryFromTokensShape(line, toks);
    var k :| 0 <= k < |toks| && IsCommentToken(toks[k]);
    var j :| 0 <= j < |toks[k]| && toks[k][j] == '#';
    SplitChars(line, '#');
  }
}
