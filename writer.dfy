/**
 * `LHA.write`: what the writer emits, one string per `fout.write` call, each
 * a rendered record followed by a newline. All blocks come first, in the
 * order of `self.blocks`, each followed by its entries; then all decays, in
 * the order of `self.decays`, each followed by its entries.
 */
module Writer {
  import opened Wrappers
  import opened Text
  import opened Records
  import opened Parse

  /** The lines of a record's entries, in order. */
  function EntryLines(es: seq<Entry>): (r: seq<string>)
    ensures |r| == |es|
    decreases |es|
  {
    if es == [] then [] else EntryLines(es[..|es| - 1]) + [RenderEntry(es[|es| - 1]) + "\n"]
  }

  /** Entry line `k` is entry `k` rendered: the entries keep their order. */
  lemma {:induction false} EntryLinesAt(es: seq<Entry>, k: nat)
    requires k < |es|
    ensures EntryLines(es)[k] == RenderEntry(es[k]) + "\n"
    decreases |es|
  {
    if k < |es| - 1 {
      EntryLinesAt(es[..|es| - 1], k);
    }
  }

  /** A block's header line followed by its entry lines. */
  function BlockSection(b: Block): seq<string> {
    [RenderBlockHeader(b) + "\n"] + EntryLines(b.entries)
  }

  /** A decay's header line, in the corrected form of `Decay.__str__`
      (RenderDecayHeader), followed by its entry lines. */
  function DecaySection(d: Decay): seq<string> {
    [RenderDecayHeader(d) + "\n"] + EntryLines(d.entries)
  }

  /** The sections of the blocks under `keys`, in the order of `keys`. */
  function BlockLines(t: Tables, keys: seq<string>): seq<string>
    requires forall k :: k in keys ==> k in t.blocks
    decreases |keys|
  {
    if keys == [] then []
    else BlockLines(t, keys[..|keys| - 1]) + BlockSection(t.blocks[keys[|keys| - 1]])
  }

  /** The sections of the decays under `keys`, in the order of `keys`. */
  function DecayLines(t: Tables, keys: seq<int>): seq<string>
    requires forall k :: k in keys ==> k in t.decays
    decreases |keys|
  {
    if keys == [] then []
    else
      var k := keys[|keys| - 1];
      assert k in keys;
      DecayLines(t, keys[..|keys| - 1]) + DecaySection(t.decays[k])
  }

  /** One more key: its section follows the sections of the keys before it. */
  lemma {:induction false} BlockLinesPrefix(t: Tables, keys: seq<string>, i: nat)
    requires i < |keys| && forall k :: k in keys ==> k in t.blocks
    ensures BlockLines(t, keys[..i + 1]) == BlockLines(t, keys[..i]) + BlockSection(t.blocks[keys[i]])
  {
    var upto := keys[..i + 1];
    assert upto[..i] == keys[..i] && upto[i] == keys[i];
    assert BlockLines(t, upto) == BlockLines(t, upto[..i]) + BlockSection(t.blocks[upto[i]]);
  }

  lemma {:induction false} DecayLinesPrefix(t: Tables, keys: seq<int>, i: nat)
    requires i < |keys| && forall k :: k in keys ==> k in t.decays
    ensures keys[i] in t.decays
    ensures DecayLines(t, keys[..i + 1]) == DecayLines(t, keys[..i]) + DecaySection(t.decays[keys[i]])
  {
    assert keys[i] in keys;
    var upto := keys[..i + 1];
    assert upto[..i] == keys[..i] && upto[i] == keys[i];
    assert DecayLines(t, upto) == DecayLines(t, upto[..i]) + DecaySection(t.decays[upto[i]]);
  }

  /** Everything `write` emits for the dictionaries `t`: one line per record
      and one per entry, and nothing else. */
  function WrittenLines(t: Tables): (r: seq<string>)
    requires WellFormed(t)
    ensures |r| == BlockLineCount(t, t.blockKeys) + DecayLineCount(t, t.decayKeys)
  {
    BlockLinesCount(t, t.blockKeys);
    DecayLinesCount(t, t.decayKeys);
    BlockLines(t, t.blockKeys) + DecayLines(t, t.decayKeys)
  }

  /** The number of lines written for the blocks under `keys`: one header
      per block plus one line per entry. */
  function BlockLineCount(t: Tables, keys: seq<string>): nat
    requires forall k :: k in keys ==> k in t.blocks
    decreases |keys|
  {
    if keys == [] then 0
    else BlockLineCount(t, keys[..|keys| - 1]) + 1 + |t.blocks[keys[|keys| - 1]].entries|
  }

  /** Each block contributes its header and exactly one line per entry. */
  lemma {:induction false} BlockLinesCount(t: Tables, keys: seq<string>)
    requires forall k :: k in keys ==> k in t.blocks
    ensures |BlockLines(t, keys)| == BlockLineCount(t, keys)
    decreases |keys|
  {
    if keys != [] {
      BlockLinesCount(t, keys[..|keys| - 1]);
    }
  }

  /** The number of lines written for the decays under `keys`. */
  function DecayLineCount(t: Tables, keys: seq<int>): nat
    requires forall k :: k in keys ==> k in t.decays
    decreases |keys|
  {
    if keys == [] then 0
    else
      var k := keys[|keys| - 1];
      assert k in keys;
      DecayLineCount(t, keys[..|keys| - 1]) + 1 + |t.decays[k].entries|
  }

  /** Each decay contributes its header and exactly one line per entry. */
  lemma {:induction false} DecayLinesCount(t: Tables, keys: seq<int>)
    requires forall k :: k in keys ==> k in t.decays
    ensures |DecayLines(t, keys)| == DecayLineCount(t, keys)
    decreases |keys|
  {
    if keys != [] {
      DecayLinesCount(t, keys[..|keys| - 1]);
    }
  }

  /** `part` is the stretch of `whole` that starts at `o`. */
  predicate Within<T(==)>(whole: seq<T>, o: nat, part: seq<T>) {
    o + |part| <= |whole| && whole[o..o + |part|] == part
  }

  /** A stretch of `a` is a stretch of `a + b` at the same place. */
  lemma {:induction false} WithinFront<T>(a: seq<T>, b: seq<T>, o: nat, part: seq<T>)
    requires Within(a, o, part)
    ensures Within(a + b, o, part)
  {
    assert (a + b)[o..o + |part|] == a[o..o + |part|];
  }

  /** `b` is the stretch of `a + b` after `a`. */
  lemma {:induction false} WithinBack<T>(a: seq<T>, b: seq<T>)
    ensures Within(a + b, |a|, b)
  {
    assert (a + b)[|a|..|a| + |b|] == b;
  }

  /** A stretch of `b` is a stretch of `a + b`, shifted by `|a|`. */
  lemma {:induction false} WithinShift<T>(a: seq<T>, b: seq<T>, o: nat, part: seq<T>)
    requires Within(b, o, part)
    ensures Within(a + b, |a| + o, part)
  {
    assert (a + b)[|a| + o..|a| + o + |part|] == b[o..o + |part|];
  }

  /** The section of key `i` follows the sections of the keys before it. */
  lemma {:induction false} BlockSectionIn(t: Tables, keys: seq<string>, i: nat)
    requires i < |keys| && forall k :: k in keys ==> k in t.blocks
    ensures Within(BlockLines(t, keys), BlockLineCount(t, keys[..i]), BlockSection(t.blocks[keys[i]]))
    decreases |keys|
  {
    var front := keys[..|keys| - 1];
    var head := BlockLines(t, front);
    var last := BlockSection(t.blocks[keys[|keys| - 1]]);
    assert BlockLines(t, keys) == head + last;
    if i < |keys| - 1 {
      assert front[..i] == keys[..i] && front[i] == keys[i];
      BlockSectionIn(t, front, i);
      WithinFront(head, last, BlockLineCount(t, keys[..i]), BlockSection(t.blocks[keys[i]]));
    } else {
      assert keys[..i] == front;
      BlockLinesCount(t, front);
      WithinBack(head, last);
    }
  }

  lemma {:induction false} DecayKeyIn(t: Tables, keys: seq<int>, j: nat)
    requires j < |keys| && forall k :: k in keys ==> k in t.decays
    ensures keys[j] in t.decays
  {
    var k := keys[j];
    assert k in keys;
  }

  /** The section of key `i` follows the sections of the keys before it. */
  lemma {:induction false} DecaySectionIn(t: Tables, keys: seq<int>, i: nat)
    requires i < |keys| && forall k :: k in keys ==> k in t.decays
    ensures keys[i] in t.decays
    ensures Within(DecayLines(t, keys), DecayLineCount(t, keys[..i]), DecaySection(t.decays[keys[i]]))
    decreases |keys|
  {
    var n := |keys| - 1;
    DecayKeyIn(t, keys, i);
    DecayKeyIn(t, keys, n);
    var front := keys[..n];
    var head := DecayLines(t, front);
    var last := DecaySection(t.decays[keys[n]]);
    var o := DecayLineCount(t, keys[..i]);
    var part := DecaySection(t.decays[keys[i]]);
    assert DecayLines(t, keys) == head + last;
    if i < n {
      assert front[..i] == keys[..i] && front[i] == keys[i];
      DecaySectionIn(t, front, i);
      WithinFront(head, last, o, part);
    } else {
      assert keys[..i] == front;
      DecayLinesCount(t, front);
      WithinBack(head, last);
    }
  }

  /** The section of the `i`-th block in the order of `self.blocks` is
      written right after the sections of the blocks before it, from the
      first line on. */
  lemma {:induction false} BlockSectionPlace(t: Tables, i: nat)
    requires WellFormed(t) && i < |t.blockKeys|
    ensures Within(WrittenLines(t), BlockLineCount(t, t.blockKeys[..i]), BlockSection(t.blocks[t.blockKeys[i]]))
  {
    BlockSectionIn(t, t.blockKeys, i);
    WithinFront(BlockLines(t, t.blockKeys), DecayLines(t, t.decayKeys),
                BlockLineCount(t, t.blockKeys[..i]), BlockSection(t.blocks[t.blockKeys[i]]));
  }

  /** The section of the `i`-th decay in the order of `self.decays` is
      written after all block sections and the sections of the decays
      before it. */
  lemma {:induction false} DecaySectionPlace(t: Tables, i: nat)
    requires WellFormed(t) && i < |t.decayKeys|
    ensures t.decayKeys[i] in t.decays
    ensures Within(WrittenLines(t), BlockLineCount(t, t.blockKeys) + DecayLineCount(t, t.decayKeys[..i]),
                   DecaySection(t.decays[t.decayKeys[i]]))
  {
    DecaySectionIn(t, t.decayKeys, i);
    BlockLinesCount(t, t.blockKeys);
    WithinShift(BlockLines(t, t.blockKeys), DecayLines(t, t.decayKeys),
                DecayLineCount(t, t.decayKeys[..i]), DecaySection(t.decays[t.decayKeys[i]]));
  }
}
