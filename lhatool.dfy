/**
 * The class `LHA`: two insertion-ordered dictionaries of records, filled by
 * `process_input` line by line, queried by `get_block` and `get_decay`,
 * extended by `add_block` and `add_decay`, and written out by `write`.
 * Each method is proved against the functions of the modules Parse and
 * Writer that say what it computes.
 */
module LhaTool {
  import opened Wrappers
  import opened Text
  import opened Tokens
  import opened Lines
  import opened Headers
  import opened Records
  import opened Entries
  import opened Parse
  import opened Writer

  class Lha {
    var blockKeys: seq<string>
    var blocks: map<string, Block>
    var decayKeys: seq<int>
    var decays: map<int, Decay>

    function Contents(): Tables
      reads this
    {
      Tables(blockKeys, blocks, decayKeys, decays)
    }

    ghost predicate Valid()
      reads this
    {
      WellFormed(Contents())
    }

    /** `LHA.__init__` before it reads its input: both dictionaries empty. */
    constructor ()
      ensures Valid() && Contents() == Empty
    {
      blockKeys := [];
      blocks := map[];
      decayKeys := [];
      decays := map[];
    }

    /** `get_block`: the block stored under `name`; Python's `KeyError` when
        there is none. */
    method GetBlock(name: string) returns (r: Result<Block, QueryError>)
      requires Valid()
      ensures r.Ok? <==> name in blocks
      ensures r.Ok? ==> r.value == blocks[name] && r.value.title == name
      ensures r.Err? ==> r.error == NoSuchBlock(name)
    {
      if name in blocks {
        r := Ok(blocks[name]);
      } else {
        r := Err(NoSuchBlock(name));
      }
    }

    /** `get_decay`: the decay stored under `pid`; Python's `KeyError` when
        there is none. */
    method GetDecay(pid: int) returns (r: Result<Decay, QueryError>)
      requires Valid()
      ensures r.Ok? <==> pid in decays
      ensures r.Ok? ==> r.value == decays[pid] && r.value.pdgid == pid
      ensures r.Err? ==> r.error == NoSuchDecay(pid)
    {
      if pid in decays {
        r := Ok(decays[pid]);
      } else {
        r := Err(NoSuchDecay(pid));
      }
    }

    /** `add_block`: `self.blocks[block.title] = block`. */
    method AddBlock(b: Block)
      requires Valid()
      modifies this
      ensures Valid()
      ensures Contents() == PutBlock(old(Contents()), b)
    {
      PutBlockWellFormed(Contents(), b);
      if b.title !in blocks {
        blockKeys := blockKeys + [b.title];
      }
      blocks := blocks[b.title := b];
    }

    /** `add_decay`: `self.decays[decay.pdgid] = decay`. */
    method AddDecay(d: Decay)
      requires Valid()
      modifies this
      ensures Valid()
      ensures Contents() == PutDecay(old(Contents()), d)
    {
      PutDecayWellFormed(Contents(), d);
      if d.pdgid !in decays {
        decayKeys := decayKeys + [d.pdgid];
      }
      decays := decays[d.pdgid := d];
    }

    /** `current_decay_or_block.entries.append(e)`. */
    method Append(target: Target, e: Entry)
      requires Valid() && TargetIn(Contents(), target)
      modifies this
      ensures Valid()
      ensures Contents() == AppendTo(old(Contents()), target, e)
    {
      AppendToWellFormed(Contents(), target, e);
      match target
      case NoTarget =>
      case InBlock(n) => blocks := blocks[n := blocks[n].Add(e)];
      case InDecay(p) => decays := decays[p := decays[p].Add(e)];
    }

    /** The token loop of the ENTRY branch (lhatool.py:116-136). */
    static method ParseEntry(line: string) returns (e: Entry)
      ensures e == EntryOf(line)
    {
      var toks := Split(line);
      ghost var whole := EntryFromTokens(line, toks);
      var vals: seq<Value> := [];
      var comm: Option<string> := None;
      var i := 0;
      while i < |toks| && comm.None?
        invariant 0 <= i <= |toks|
        invariant comm.None? ==>
                    var r := EntryFromTokens(line, toks[i..]);
                    whole == Entry(vals + r.values, r.comment)
        invariant comm.Some? ==> whole == Entry(vals, comm)
      {
        var v := TokenValue(toks[i]);
        EntryFromTokensAt(line, toks, i);
        ghost var r := EntryFromTokens(line, toks[i + 1..]);
        if EntryType(toks[i]) == CommentTok {
          comm := Some(CommentOf(line));
        } else if v.Some? {
          assert vals + ([v.value] + r.values) == (vals + [v.value]) + r.values;
          vals := vals + [v.value];
        }
        i := i + 1;
      }
      if comm.None? {
        assert toks[i..] == [];
        assert vals + [] == vals;
      }
      e := Entry(vals, comm);
    }

    /** One iteration of the loop of `process_input` on line `i`. */
    method ProcessLine(line: string, i: nat, target: Target) returns (next: Target, err: Option<ParseError>)
      requires Valid() && TargetIn(Contents(), target)
      modifies this
      ensures Valid() && TargetIn(Contents(), next)
      ensures State(Contents(), next, err) == Step(State(old(Contents()), target, None), Classify(line), i)
    {
      next, err := target, None;
      var kind := LineType(line);
      if kind == BlockLine {
        var name := BlockName(line);
        var comment := HeaderComment(line);
        AddBlock(Block(name, comment, []));
        next := InBlock(name);
      } else if kind == EntryLine {
        if target.NoTarget? {
          err := Some(EntryOutsideBlock(i + 1));
        } else {
          var e := ParseEntry(line);
          Append(target, e);
        }
      } else if kind == DecayLine {
        var fields := DecayFields(line);
        if fields.None? {
          err := Some(InvalidDecay(i));
        } else {
          var pid := ParseInt(fields.value.0);
          var width := fields.value.1;
          var comment := HeaderComment(line);
          if !IsPyFloat(width) {
            err := Some(BadWidth(width));
          } else {
            AddDecay(Decay(pid, width, comment, []));
            next := InDecay(pid);
          }
        }
      } else if kind == CommentLine {
        if !target.NoTarget? {
          Append(target, Entry([], Some(line)));
        }
      }
    }

    /** `process_input`: the lines in order until the first one that raises.
        On an error the dictionaries keep what the lines before it stored. */
    method ProcessInput(lines: seq<string>) returns (err: Option<ParseError>)
      requires Valid()
      modifies this
      ensures Valid()
      ensures Contents() == ParseLines(old(Contents()), lines).tables
      ensures err == ParseLines(old(Contents()), lines).error
    {
      ghost var start := Start(Contents());
      ghost var infos := ClassifyAll(lines);
      var target := NoTarget;
      err := None;
      var i := 0;
      while i < |lines| && err.None?
        invariant 0 <= i <= |lines|
        invariant Valid() && TargetIn(Contents(), target)
        invariant start == Start(old(Contents())) && StateValid(start)
        invariant Run(start, infos, 0, i) == State(Contents(), target, err)
      {
        ClassifyAllAt(lines, i);
        RunLast(start, infos, 0, i + 1);
        target, err := ProcessLine(lines[i], i, target);
        i := i + 1;
      }
      RunStopped(start, infos, i);
    }

    /** The inner loops of `write`: one line per entry. */
    static method WriteEntries(es: seq<Entry>) returns (out: seq<string>)
      ensures out == EntryLines(es)
    {
      out := [];
      var j := 0;
      while j < |es|
        invariant 0 <= j <= |es|
        invariant out == EntryLines(es[..j])
      {
        assert es[..j + 1][..j] == es[..j];
        out := out + [RenderEntry(es[j]) + "\n"];
        j := j + 1;
      }
      assert es[..j] == es;
    }

    /** `write`: the blocks' sections in their order, then the decays', each
        decay header in the corrected form of `Decay.__str__`. */
    method Write() returns (out: seq<string>)
      requires Valid()
      ensures out == WrittenLines(Contents())
    {
      var t := Contents();
      var blockPart: seq<string> := [];
      var i := 0;
      while i < |blockKeys|
        invariant 0 <= i <= |blockKeys|
        invariant blockPart == BlockLines(t, blockKeys[..i])
      {
        var key := blockKeys[i];
        assert key in t.blocks;
        var b := blocks[key];
        var rows := WriteEntries(b.entries);
        BlockLinesPrefix(t, blockKeys, i);
        blockPart := blockPart + ([RenderBlockHeader(b) + "\n"] + rows);
        i := i + 1;
      }
      assert blockKeys[..i] == blockKeys;
      var decayPart: seq<string> := [];
      i := 0;
      while i < |decayKeys|
        invariant 0 <= i <= |decayKeys|
        invariant decayPart == DecayLines(t, decayKeys[..i])
      {
        var key := decayKeys[i];
        assert key in t.decays;
        var d := decays[key];
        var rows := WriteEntries(d.entries);
        DecayLinesPrefix(t, decayKeys, i);
        decayPart := decayPart + ([RenderDecayHeader(d) + "\n"] + rows);
        i := i + 1;
      }
      assert decayKeys[..i] == decayKeys;
      out := blockPart + decayPart;
    }
  }
}
