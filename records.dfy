/**
 * The record classes `Entry`, `Block` and `Decay`: their data, their queries and
 * their `__str__` renderings. Records are values here; the parse driver and
 * the document replace a record by its updated copy where the source appends
 * to the object in place.
 */
module Records {
  import opened Wrappers
  import opened Text
  import opened Tokens

  /** The ways a query fails (Python raises in each case). */
  datatype QueryError =
    | KeyNotFound(key: Value)
    | IndexOutOfRange(index: int, count: nat)
    | NoBranchingRatio(id1: int, id2: int)
    | NoSuchBlock(name: string)
    | NoSuchDecay(pdgid: int)

  /** One row: its values in order and an optional comment (`None` in Python). */
  datatype Entry = Entry(values: seq<Value>, comment: Option<string>) {

    /** The `lookup` dictionary built by the constructor: first value to second
        value when the entry has exactly two values, empty otherwise. */
    function Lookup(): map<Value, Value> {
      if |values| == 2 then map[values[0] := values[1]] else map[]
    }
  }

  /** The entry carries the pair (key, value) of a two-valued row. */
  predicate KeyedBy(e: Entry, key: Value) {
    |e.values| == 2 && e.values[0] == key
  }

  /** An entry's lookup holds one pair exactly when it has two values, and that
      pair maps its first value to its second. */
  lemma {:induction false} LookupHoldsOnePair(e: Entry)
    ensures |e.Lookup()| == 1 <==> |e.values| == 2
    ensures |e.Lookup()| == 0 <==> |e.values| != 2
    ensures forall key :: key in e.Lookup() <==> KeyedBy(e, key)
    ensures forall key :: key in e.Lookup() ==> e.Lookup()[key] == e.values[1]
  {
    if |e.values| == 2 {
      assert e.Lookup().Keys == {e.values[0]};
    }
  }

  datatype Block = Block(title: string, comment: Option<string>, entries: seq<Entry>) {

    /** `Block.add`: append one entry; title and comment stay. */
    function Add(e: Entry): (r: Block)
      ensures r.title == title && r.comment == comment
      ensures |r.entries| == |entries| + 1 && r.entries[|entries|] == e
      ensures forall i :: 0 <= i < |entries| ==> r.entries[i] == entries[i]
    {
      this.(entries := entries + [e])
    }

    /** `Block.get_entry_by_key`. */
    function GetEntryByKey(key: Value): Result<Value, QueryError> {
      EntryByKey(entries, key)
    }

    /** `Block.get_entry_by_index` as written: the bounds check raises, and the
        in-bounds path falls off the end of the method and returns None. */
    function GetEntryByIndexAsWritten(index: int): (r: Result<Option<Entry>, QueryError>)
      ensures r.Err? <==> index >= |entries|
      ensures r.Ok? ==> r.value == None
    {
      if index >= |entries| then Err(IndexOutOfRange(index, |entries|)) else Ok(None)
    }

    /** `Block.get_entry_by_index` with the evidently intended `return
        self.entries[index]` after the check; Python's list indexing counts a
        negative index from the end and raises below minus the length. */
    function GetEntryByIndex(index: int): (r: Result<Entry, QueryError>)
      ensures r.Ok? <==> -|entries| <= index < |entries|
      ensures r.Ok? && index >= 0 ==> r.value == entries[index]
      ensures r.Ok? && index < 0 ==> r.value == entries[|entries| + index]
      ensures r.Err? ==> r.error == IndexOutOfRange(index, |entries|)
    {
      if index >= |entries| then Err(IndexOutOfRange(index, |entries|))
      else if index >= 0 then Ok(entries[index])
      else if index >= -|entries| then Ok(entries[|entries| + index])
      else Err(IndexOutOfRange(index, |entries|))
    }
  }

  /** The scan of `get_entry_by_key`: the lookup value of the first entry whose
      lookup holds the key; an error when no entry does. */
  function EntryByKey(entries: seq<Entry>, key: Value): (r: Result<Value, QueryError>)
    ensures r.Err? <==> forall i :: 0 <= i < |entries| ==> !KeyedBy(entries[i], key)
    ensures r.Err? ==> r.error == KeyNotFound(key)
    ensures r.Ok? ==> exists i :: 0 <= i < |entries| && KeyedBy(entries[i], key)
                        && r.value == entries[i].values[1]
                        && forall j :: 0 <= j < i ==> !KeyedBy(entries[j], key)
    decreases |entries|
  {
    if entries == [] then Err(KeyNotFound(key))
    else
      var e := entries[0];
      LookupHoldsOnePair(e);
      if key in e.Lookup() then Ok(e.Lookup()[key])
      else
        var r := EntryByKey(entries[1..], key);
        assert r.Ok? ==> exists i :: 0 <= i < |entries| && KeyedBy(entries[i], key)
                           && r.value == entries[i].values[1]
                           && forall j :: 0 <= j < i ==> !KeyedBy(entries[j], key) by {
          if r.Ok? {
            var i :| 0 <= i < |entries| - 1 && KeyedBy(entries[1..][i], key)
                     && r.value == entries[1..][i].values[1]
                     && forall j :: 0 <= j < i ==> !KeyedBy(entries[1..][j], key);
            assert KeyedBy(entries[i + 1], key);
            forall j | 0 <= j < i + 1 ensures !KeyedBy(entries[j], key) {
              if j > 0 { assert entries[j] == entries[1..][j - 1]; }
            }
          }
        }
        assert r.Err? ==> forall i :: 0 <= i < |entries| ==> !KeyedBy(entries[i], key) by {
          if r.Err? {
            forall i | 0 <= i < |entries| ensures !KeyedBy(entries[i], key) {
              if i > 0 { assert entries[i] == entries[1..][i - 1]; }
            }
          }
        }
        r
  }

  /** Appending an entry never changes an answer the block already gives:
      the first matching entry wins. */
  lemma {:induction false} EntryByKeyAppend(entries: seq<Entry>, e: Entry, key: Value)
    requires EntryByKey(entries, key).Ok?
    ensures EntryByKey(entries + [e], key) == EntryByKey(entries, key)
    decreases |entries|
  {
    assert entries != [];
    assert (entries + [e])[0] == entries[0];
    if key !in entries[0].Lookup() {
      assert (entries + [e])[1..] == entries[1..] + [e];
      EntryByKeyAppend(entries[1..], e, key);
    }
  }

  /** `Block.add` and the queries: an answer the block gave stays; a key the
      block did not know is answered by the new entry when it carries that key;
      the new entry is the last one by index. */
  lemma {:induction false} BlockAddQueries(b: Block, e: Entry, key: Value)
    ensures b.GetEntryByKey(key).Ok? ==> b.Add(e).GetEntryByKey(key) == b.GetEntryByKey(key)
    ensures b.GetEntryByKey(key).Err? && KeyedBy(e, key) ==> b.Add(e).GetEntryByKey(key) == Ok(e.values[1])
    ensures b.Add(e).GetEntryByIndex(-1) == Ok(e) && b.Add(e).GetEntryByIndex(|b.entries|) == Ok(e)
  {
    if b.GetEntryByKey(key).Ok? {
      EntryByKeyAppend(b.entries, e, key);
    } else if KeyedBy(e, key) {
      EntryByKeyNew(b.entries, e, key);
    }
  }

  /** A key no entry carries is answered by an appended entry that carries it. */
  lemma {:induction false} EntryByKeyNew(entries: seq<Entry>, e: Entry, key: Value)
    requires EntryByKey(entries, key).Err? && KeyedBy(e, key)
    ensures EntryByKey(entries + [e], key) == Ok(e.values[1])
    decreases |entries|
  {
    LookupHoldsOnePair(e);
    if entries != [] {
      assert (entries + [e])[0] == entries[0];
      assert !KeyedBy(entries[0], key);
      LookupHoldsOnePair(entries[0]);
      assert (entries + [e])[1..] == entries[1..] + [e];
      assert EntryByKey(entries[1..], key).Err? by {
        forall i | 0 <= i < |entries| - 1 ensures !KeyedBy(entries[1..][i], key) {
          assert entries[1..][i] == entries[i + 1];
        }
      }
      EntryByKeyNew(entries[1..], e, key);
    } else {
      assert [e][0] == e;
    }
  }

  /** The row of a decay that gives the branching ratio into (id1, id2): at
      least four values, the third and fourth being those two ids in order. */
  predicate ChannelOf(e: Entry, id1: int, id2: int) {
    |e.values| >= 4 && e.values[2] == Int(id1) && e.values[3] == Int(id2)
  }

  /** One decay: its particle id, its width (kept as the text it was read
      from), an optional comment and its branching-ratio rows. */
  datatype Decay = Decay(pdgid: int, width: string, comment: Option<string>, entries: seq<Entry>) {

    /** `current_decay_or_block.entries.append(e)` on a decay: append one
        row; id, width and comment stay. */
    function Add(e: Entry): (r: Decay)
      ensures r.pdgid == pdgid && r.width == width && r.comment == comment
      ensures |r.entries| == |entries| + 1 && r.entries[|entries|] == e
      ensures forall i :: 0 <= i < |entries| ==> r.entries[i] == entries[i]
    {
      this.(entries := entries + [e])
    }

    /** `Decay.get_branching_ratio`. */
    function GetBranchingRatio(id1: int, id2: int): Result<Value, QueryError> {
      BranchingRatio(entries, id1, id2)
    }
  }

  /** The scan of `get_branching_ratio`: the first value of the first row of
      the channel (id1, id2); an error when there is none. */
  function BranchingRatio(entries: seq<Entry>, id1: int, id2: int): (r: Result<Value, QueryError>)
    ensures r.Err? <==> forall i :: 0 <= i < |entries| ==> !ChannelOf(entries[i], id1, id2)
    ensures r.Err? ==> r.error == NoBranchingRatio(id1, id2)
    ensures r.Ok? ==> exists i :: 0 <= i < |entries| && ChannelOf(entries[i], id1, id2)
                        && r.value == entries[i].values[0]
                        && forall j :: 0 <= j < i ==> !ChannelOf(entries[j], id1, id2)
    decreases |entries|
  {
    if entries == [] then Err(NoBranchingRatio(id1, id2))
    else
      var e := entries[0];
      if |e.values| >= 4 && e.values[2] == Int(id1) && e.values[3] == Int(id2) then Ok(e.values[0])
      else
        var r := BranchingRatio(entries[1..], id1, id2);
        assert r.Ok? ==> exists i :: 0 <= i < |entries| && ChannelOf(entries[i], id1, id2)
                           && r.value == entries[i].values[0]
                           && forall j :: 0 <= j < i ==> !ChannelOf(entries[j], id1, id2) by {
          if r.Ok? {
            var i :| 0 <= i < |entries| - 1 && ChannelOf(entries[1..][i], id1, id2)
                     && r.value == entries[1..][i].values[0]
                     && forall j :: 0 <= j < i ==> !ChannelOf(entries[1..][j], id1, id2);
            assert ChannelOf(entries[i + 1], id1, id2);
            forall j | 0 <= j < i + 1 ensures !ChannelOf(entries[j], id1, id2) {
              if j > 0 { assert entries[j] == entries[1..][j - 1]; }
            }
          }
        }
        assert r.Err? ==> forall i :: 0 <= i < |entries| ==> !ChannelOf(entries[i], id1, id2) by {
          if r.Err? {
            forall i | 0 <= i < |entries| ensures !ChannelOf(entries[i], id1, id2) {
              if i > 0 { assert entries[i] == entries[1..][i - 1]; }
            }
          }
        }
        r
  }

  /** Appending a row never changes a branching ratio the decay already gives:
      the first matching row wins. */
  lemma {:induction false} BranchingRatioAppend(entries: seq<Entry>, e: Entry, id1: int, id2: int)
    requires BranchingRatio(entries, id1, id2).Ok?
    ensures BranchingRatio(entries + [e], id1, id2) == BranchingRatio(entries, id1, id2)
    decreases |entries|
  {
    assert entries != [];
    assert (entries + [e])[0] == entries[0];
    if !ChannelOf(entries[0], id1, id2) {
      assert (entries + [e])[1..] == entries[1..] + [e];
      BranchingRatioAppend(entries[1..], e, id1, id2);
    }
  }

  /** Appending a row to a decay keeps every branching ratio it gave. */
  lemma {:induction false} DecayAddQueries(d: Decay, e: Entry, id1: int, id2: int)
    ensures d.GetBranchingRatio(id1, id2).Ok? ==>
              d.Add(e).GetBranchingRatio(id1, id2) == d.GetBranchingRatio(id1, id2)
  {
    if d.GetBranchingRatio(id1, id2).Ok? {
      BranchingRatioAppend(d.entries, e, id1, id2);
    }
  }

  /** The match is order-sensitive: the row for (a, b) does not answer (b, a). */
  lemma {:induction false} BranchingRatioOrderSensitive(br: Value, a: int, b: int)
    requires a != b
    ensures BranchingRatio([Entry([br, Int(2), Int(a), Int(b)], None)], a, b) == Ok(br)
    ensures BranchingRatio([Entry([br, Int(2), Int(a), Int(b)], None)], b, a).Err?
  {
  }

  /** The values of an entry as `Entry.__str__` writes them: each after a tab.
      Nothing is written for no values, and no newline unless a value holds one. */
  function RenderValues(vs: seq<Value>): (r: string)
    decreases |vs|
  {
    if vs == [] then "" else "\t" + RenderValue(vs[0]) + RenderValues(vs[1..])
  }

  /** Nothing is written exactly when there are no values. */
  lemma {:induction false} RenderValuesEmpty(vs: seq<Value>)
    ensures RenderValues(vs) == [] <==> vs == []
  {
    if vs != [] {
      assert |RenderValues(vs)| > 0;
    }
  }

  /** Values written without a newline are joined without one. */
  lemma {:induction false} RenderValuesNoNewline(vs: seq<Value>)
    requires forall k :: 0 <= k < |vs| ==> '\n' !in RenderValue(vs[k])
    ensures '\n' !in RenderValues(vs)
    decreases |vs|
  {
    if vs != [] {
      assert forall k :: 0 <= k < |vs[1..]| ==> vs[1..][k] == vs[k + 1];
      RenderValuesNoNewline(vs[1..]);
      assert '\n' !in RenderValue(vs[0]);
    }
  }

  /** `Entry.__str__`: the values, then the comment with its newlines removed,
      separated from the values by a tab only when there are values. */
  function RenderEntry(e: Entry): string {
    var s := RenderValues(e.values);
    match e.comment
    case None => s
    case Some(c) => (if s != "" then s + "\t" else s) + StripNewlines(c)
  }

  /** An entry line starts with its values, and its comment adds no newline. */
  lemma {:induction false} RenderEntryLayout(e: Entry)
    ensures RenderValues(e.values) <= RenderEntry(e)
    ensures '\n' !in RenderValues(e.values) ==> '\n' !in RenderEntry(e)
  {
    var s := RenderValues(e.values);
    match e.comment
    case None =>
    case Some(c) =>
      var x := if s != "" then s + "\t" else s;
      assert RenderEntry(e) == x + StripNewlines(c);
      assert s <= x;
  }

  /** The `\t# comment` segment of a header, present only for a comment. */
  function HeaderCommentSegment(comment: Option<string>): string {
    match comment
    case None => ""
    case Some(c) => "\t# " + c
  }

  /** `Block.__str__`: the keyword, a tab, the title and the comment segment. */
  function RenderBlockHeader(b: Block): string {
    "BLOCK\t" + b.title + HeaderCommentSegment(b.comment)
  }

  /** A block header starts with the keyword, a tab and the title, and holds
      no newline unless the title or the comment does. */
  lemma {:induction false} RenderBlockHeaderLayout(b: Block)
    ensures var r := RenderBlockHeader(b);
            |r| >= 6 + |b.title| && r[..6] == "BLOCK\t" && r[6..6 + |b.title|] == b.title
    ensures '\n' !in b.title && (b.comment.Some? ==> '\n' !in b.comment.value) ==>
              '\n' !in RenderBlockHeader(b)
  {
    var r := RenderBlockHeader(b);
    assert r == "BLOCK\t" + b.title + HeaderCommentSegment(b.comment);
    assert r[..6] == "BLOCK\t";
    assert r[6..6 + |b.title|] == b.title;
  }

  /** `Decay.__str__` corrected to print the comment segment only when there is
      a comment, as the block header does; the width is written as its text. */
  function RenderDecayHeader(d: Decay): string {
    "DECAY\t" + IntToString(d.pdgid) + "\t" + d.width + HeaderCommentSegment(d.comment)
  }

  /** A decay header starts with the keyword and a tab, and holds no newline
      unless the width or the comment does: the id is written as digits. */
  lemma {:induction false} RenderDecayHeaderLayout(d: Decay)
    ensures var r := RenderDecayHeader(d); |r| >= 6 && r[..6] == "DECAY\t"
    ensures '\n' !in d.width && (d.comment.Some? ==> '\n' !in d.comment.value) ==>
              '\n' !in RenderDecayHeader(d)
  {
    IntToStringDigits(d.pdgid);
    var r := RenderDecayHeader(d);
    assert r[..6] == "DECAY\t";
  }

  /** `Decay.__str__` as written: `\t# {}` is always formatted, so a missing
      comment prints as `None`, and a present one is then appended a second time. */
  function RenderDecayHeaderAsWritten(d: Decay): (r: string)
    ensures d.comment.None? ==> r == RenderDecayHeader(d) + "\t# None"
    ensures d.comment.Some? ==> r == RenderDecayHeader(d) + "\t" + StripNewlines(d.comment.value)
  {
    "DECAY\t" + IntToString(d.pdgid) + "\t" + d.width
      + "\t# " + (match d.comment case None => "None" case Some(c) => c)
      + (match d.comment case None => "" case Some(c) => "\t" + StripNewlines(c))
  }
}
