/**
 * The state `process_input` builds and the effect of one input line on it.
 * The two `OrderedDict`s of the `LHA` object are written as a key order plus
 * a map; the variable `current_decay_or_block` as the key of the record the
 * latest header line stored. A raised exception ends the parse, which is
 * recorded as an error in the state.
 */
module Parse {
  import opened Wrappers
  import opened Text
  import opened Tokens
  import opened Lines
  import opened Headers
  import opened Records
  import opened Entries
  import opened Folds

  /** The exceptions `process_input` raises, with the line number it reports. */
  datatype ParseError =
    | EntryOutsideBlock(lineNo: nat)   // 'Entry w/o block at line %d' % (i+1)
    | InvalidDecay(lineNo: nat)        // 'Invalid DECAY block at line %d' % i
    | BadWidth(width: string)          // ValueError from float(width)

  /** `self.blocks` and `self.decays`: insertion-ordered dictionaries. */
  datatype Tables = Tables(
    blockKeys: seq<string>, blocks: map<string, Block>,
    decayKeys: seq<int>, decays: map<int, Decay>)

  const Empty: Tables := Tables([], map[], [], map[])

  predicate Distinct<K(==)>(ks: seq<K>) {
    forall i, j :: 0 <= i < j < |ks| ==> ks[i] != ks[j]
  }

  /** An ordered dictionary lists each of its keys once, and every record is
      stored under its own title or particle id. */
  predicate WellFormed(t: Tables) {
    && Distinct(t.blockKeys) && (forall k :: k in t.blockKeys ==> k in t.blocks)
    && (forall k :: k in t.blocks ==> k in t.blockKeys)
    && (forall k :: k in t.blocks ==> t.blocks[k].title == k)
    && Distinct(t.decayKeys) && (forall k :: k in t.decayKeys ==> k in t.decays)
    && (forall k :: k in t.decays ==> k in t.decayKeys)
    && (forall k :: k in t.decays ==> t.decays[k].pdgid == k)
  }

  lemma {:induction false} EmptyWellFormed()
    ensures WellFormed(Empty)
  {
  }

  /** `self.blocks[b.title] = b`: a new title is appended to the order, a known
      one keeps its place and its record is replaced. */
  function PutBlock(t: Tables, b: Block): (r: Tables)
    ensures r.blocks == t.blocks[b.title := b] && r.decayKeys == t.decayKeys && r.decays == t.decays
    ensures b.title in t.blocks ==> r.blockKeys == t.blockKeys
    ensures b.title !in t.blocks ==> r.blockKeys == t.blockKeys + [b.title]
  {
    var keys := if b.title in t.blocks then t.blockKeys else t.blockKeys + [b.title];
    t.(blockKeys := keys, blocks := t.blocks[b.title := b])
  }

  /** `self.decays[d.pdgid] = d`, with the same ordering rule. */
  function PutDecay(t: Tables, d: Decay): (r: Tables)
    ensures r.decays == t.decays[d.pdgid := d] && r.blockKeys == t.blockKeys && r.blocks == t.blocks
    ensures d.pdgid in t.decays ==> r.decayKeys == t.decayKeys
    ensures d.pdgid !in t.decays ==> r.decayKeys == t.decayKeys + [d.pdgid]
  {
    var keys := if d.pdgid in t.decays then t.decayKeys else t.decayKeys + [d.pdgid];
    t.(decayKeys := keys, decays := t.decays[d.pdgid := d])
  }

  /** Storing a block keeps the dictionaries well formed. */
  lemma {:induction false} PutBlockWellFormed(t: Tables, b: Block)
    requires WellFormed(t)
    ensures WellFormed(PutBlock(t, b))
  {
  }

  /** Storing a decay keeps the dictionaries well formed. */
  lemma {:induction false} PutDecayWellFormed(t: Tables, d: Decay)
    requires WellFormed(t)
    ensures WellFormed(PutDecay(t, d))
  {
  }

  /** The record `current_decay_or_block` refers to. */
  datatype Target = NoTarget | InBlock(name: string) | InDecay(pid: int)

  predicate TargetIn(t: Tables, target: Target) {
    match target
    case NoTarget => true
    case InBlock(n) => n in t.blocks
    case InDecay(p) => p in t.decays
  }

  /** `current_decay_or_block.entries.append(e)`; nothing without a target.
      The target always names a stored record (TargetIn is kept by every
      step, see StepValid); the function is total so that the parse needs no
      precondition. */
  function AppendTo(t: Tables, target: Target, e: Entry): (r: Tables)
    ensures r.blockKeys == t.blockKeys && r.decayKeys == t.decayKeys
    ensures r.blocks.Keys == t.blocks.Keys && r.decays.Keys == t.decays.Keys
    ensures TargetIn(t, target) && target.InBlock? ==>
              r.blocks == t.blocks[target.name := t.blocks[target.name].Add(e)] && r.decays == t.decays
    ensures TargetIn(t, target) && target.InDecay? ==>
              r.decays == t.decays[target.pid := t.decays[target.pid].Add(e)] && r.blocks == t.blocks
    ensures target.NoTarget? ==> r == t
  {
    match target
    case NoTarget => t
    case InBlock(n) => if n in t.blocks then t.(blocks := t.blocks[n := t.blocks[n].Add(e)]) else t
    case InDecay(p) => if p in t.decays then t.(decays := t.decays[p := t.decays[p].Add(e)]) else t
  }

  /** Appending to the current record keeps the dictionaries well formed. */
  lemma {:induction false} AppendToWellFormed(t: Tables, target: Target, e: Entry)
    requires WellFormed(t)
    ensures WellFormed(AppendTo(t, target, e))
  {
  }

  datatype State = State(tables: Tables, target: Target, error: Option<ParseError>)

  predicate StateValid(st: State) {
    WellFormed(st.tables) && TargetIn(st.tables, st.target)
  }

  /** The state every parse starts from. */
  function Start(t: Tables): State {
    State(t, NoTarget, None)
  }

  /** What one iteration of `process_input` reads off its line before it
      touches the dictionaries: the line's class and the fields that branch
      extracts. */
  datatype LineInfo =
    | BlockHeader(name: string, comment: Option<string>)
    | DecayHeader(fields: Option<(int, string)>, comment: Option<string>)
    | EntryRow(entry: Entry)
    | CommentRow(text: string)
    | Skipped

  /** `int(params.group(1))` and `params.group(2)` of the DECAY search, or
      None when the search fails. */
  function DecayParams(line: string): (r: Option<(int, string)>)
    ensures r.Some? <==> DecayFields(line).Some?
  {
    match DecayFields(line)
    case None => None
    case Some(fields) =>
      Some((ParseInt(fields.0), fields.1))
  }

  /** The reading of a line: `linetype`, then for a BLOCK line its name
      (lhatool.py:94-102), for a DECAY line its id, width and comment
      (lhatool.py:148-157), for an ENTRY line its entry (lhatool.py:116-136),
      for a COMMENT line the line itself (lhatool.py:173). */
  function Classify(line: string): LineInfo {
    match LineType(line)
    case BlockLine => BlockHeader(BlockName(line), HeaderComment(line))
    case DecayLine => DecayHeader(DecayParams(line), HeaderComment(line))
    case EntryLine => EntryRow(EntryOf(line))
    case CommentLine => CommentRow(line)
    case UnknownLine => Skipped
  }

  /** Every line read, in order. */
  function ClassifyAll(lines: seq<string>): (r: seq<LineInfo>)
    ensures |r| == |lines|
    decreases |lines|
  {
    if lines == [] then [] else ClassifyAll(lines[..|lines| - 1]) + [Classify(lines[|lines| - 1])]
  }

  /** Reading two runs of lines is reading them joined. */
  lemma {:induction false} ClassifyAllAppend(a: seq<string>, b: seq<string>)
    ensures ClassifyAll(a + b) == ClassifyAll(a) + ClassifyAll(b)
    decreases |b|
  {
    if b == [] {
      assert a + b == a;
    } else {
      var b' := b[..|b| - 1];
      assert (a + b)[..|a + b| - 1] == a + b';
      assert (a + b)[|a + b| - 1] == b[|b| - 1];
      ClassifyAllAppend(a, b');
    }
  }

  /** The effect of line `i` (0-based) on the state: a BLOCK or DECAY header
      stores a new, empty record in place of any record under the same key
      and makes it the current one; an ENTRY line raises `Entry w/o block`
      with its 1-based number when there is no current record and is
      appended to it otherwise; a DECAY line raises `Invalid DECAY block`
      with its 0-based number when the search fails, and the error of
      `float()` when the width is no float; a COMMENT line becomes a
      comment-only entry of the current record and is dropped without one. */
  function Step(st: State, info: LineInfo, i: nat): (r: State)
    requires st.error.None?
    ensures r.error.Some? ==> r.tables == st.tables
  {
    match info
    case BlockHeader(name, comment) =>
      State(PutBlock(st.tables, Block(name, comment, [])), InBlock(name), None)
    case EntryRow(e) =>
      if st.target.NoTarget? then st.(error := Some(EntryOutsideBlock(i + 1)))
      else st.(tables := AppendTo(st.tables, st.target, e))
    case DecayHeader(fields, comment) =>
      if fields.None? then st.(error := Some(InvalidDecay(i)))
      else if !IsPyFloat(fields.value.1) then st.(error := Some(BadWidth(fields.value.1)))
      else
        var (pid, width) := fields.value;
        State(PutDecay(st.tables, Decay(pid, width, comment, [])), InDecay(pid), None)
    case CommentRow(text) =>
      st.(tables := AppendTo(st.tables, st.target, Entry([], Some(text))))
    case Skipped => st
  }

  /** Every step keeps the dictionaries well formed and the current record
      stored. */
  lemma {:induction false} StepValid(st: State, info: LineInfo, i: nat)
    requires StateValid(st) && st.error.None?
    ensures StateValid(Step(st, info, i))
  {
    match info
    case BlockHeader(name, comment) => PutBlockWellFormed(st.tables, Block(name, comment, []));
    case EntryRow(e) => AppendToWellFormed(st.tables, st.target, e);
    case DecayHeader(fields, comment) =>
      if fields.Some? {
        PutDecayWellFormed(st.tables, Decay(fields.value.0, fields.value.1, comment, []));
      }
    case CommentRow(text) => AppendToWellFormed(st.tables, st.target, Entry([], Some(text)));
    case Skipped =>
  }

  /** One iteration of the loop as a total step: once the parse has raised
      a line changes nothing. */
  function Next(st: State, info: LineInfo, i: nat): State {
    if st.error.None? then Step(st, info, i) else st
  }

  /** The loop of `process_input` over the read lines `lo` up to `hi`
      (0-based, `hi` excluded): the steps in order, the first error ending
      the parse. */
  function Run(st: State, infos: seq<LineInfo>, lo: nat, hi: nat): State
    requires lo <= hi <= |infos|
  {
    Fold(Next, st, infos, lo, hi)
  }

  /** A run keeps the dictionaries well formed and the current record
      stored. */
  lemma {:induction false} RunValid(st: State, infos: seq<LineInfo>, lo: nat, hi: nat)
    requires StateValid(st) && lo <= hi <= |infos|
    ensures StateValid(Run(st, infos, lo, hi))
  {
    forall s, k | StateValid(s) && lo <= k < hi
      ensures StateValid(Next(s, infos[k], k))
    {
      if s.error.None? {
        StepValid(s, infos[k], k);
      }
    }
    FoldKeeps(Next, StateValid, st, infos, lo, hi);
  }

  /** The last line of a run is one more step. */
  lemma {:induction false} RunLast(st: State, infos: seq<LineInfo>, lo: nat, hi: nat)
    requires lo < hi <= |infos|
    ensures var s1 := Run(st, infos, lo, hi - 1);
            Run(st, infos, lo, hi) == if s1.error.Some? then s1 else Step(s1, infos[hi - 1], hi - 1)
  {
  }

  /** `process_input(lines)` on an object holding `t`. No lines change
      nothing, and parsing into well-formed dictionaries leaves them well
      formed, with the current record stored. */
  function ParseLines(t: Tables, lines: seq<string>): (r: State)
    ensures lines == [] ==> r == Start(t)
    ensures WellFormed(t) ==> StateValid(r)
  {
    assert WellFormed(t) ==> StateValid(Run(Start(t), ClassifyAll(lines), 0, |lines|)) by {
      if WellFormed(t) {
        RunValid(Start(t), ClassifyAll(lines), 0, |lines|);
      }
    }
    Run(Start(t), ClassifyAll(lines), 0, |lines|)
  }

  /** A BLOCK line always succeeds: the block named after the keyword starts
      afresh (an earlier block of that name, entries and all, is replaced but
      keeps its place in the order) and becomes the current record. */
  lemma {:induction false} BlockLineStep(st: State, line: string, i: nat)
    requires st.error.None? && LineType(line) == BlockLine
    ensures var r := Step(st, Classify(line), i);
            var name := BlockName(line);
            && r.error.None? && r.target == InBlock(name)
            && r.tables.blocks == st.tables.blocks[name := Block(name, HeaderComment(line), [])]
            && r.tables.blockKeys == (if name in st.tables.blocks then st.tables.blockKeys
                                      else st.tables.blockKeys + [name])
            && r.tables.decayKeys == st.tables.decayKeys && r.tables.decays == st.tables.decays
  {
  }

  /** A DECAY line raises `Invalid DECAY block` with its 0-based number when
      the pattern finds no id and width, and the float conversion's error
      when the width is no float; otherwise the decay under the parsed id
      starts afresh, keeping its place in the order, and becomes the current
      record. */
  lemma {:induction false} DecayLineStep(st: State, line: string, i: nat)
    requires st.error.None? && LineType(line) == DecayLine
    ensures var r := Step(st, Classify(line), i);
            && (DecayFields(line).None? ==> r == st.(error := Some(InvalidDecay(i))))
            && (DecayFields(line).Some? && !IsPyFloat(DecayFields(line).value.1) ==>
                  r == st.(error := Some(BadWidth(DecayFields(line).value.1))))
            && (DecayFields(line).Some? && IsPyFloat(DecayFields(line).value.1) ==>
                  var (pidText, width) := DecayFields(line).value;
                  && IsIntText(pidText)
                  && var pid := ParseInt(pidText);
                  && r.error.None? && r.target == InDecay(pid)
                  && r.tables.decays == st.tables.decays[pid := Decay(pid, width, HeaderComment(line), [])]
                  && r.tables.decayKeys == (if pid in st.tables.decays then st.tables.decayKeys
                                            else st.tables.decayKeys + [pid])
                  && r.tables.blockKeys == st.tables.blockKeys && r.tables.blocks == st.tables.blocks)
  {
    if DecayFields(line).Some? {
    }
  }

  /** A parse that has raised stays where it stopped. */
  lemma {:induction false} RunAfterError(st: State, infos: seq<LineInfo>, lo: nat, hi: nat)
    requires st.error.Some? && lo <= hi <= |infos|
    ensures Run(st, infos, lo, hi) == st
  {
    FoldFixed(Next, st, infos, lo, hi);
  }

  /** Parsing lines `lo` to `mid` and then `mid` to `hi` is parsing `lo` to
      `hi`. */
  lemma {:induction false} RunSplit(st: State, infos: seq<LineInfo>, lo: nat, mid: nat, hi: nat)
    requires lo <= mid <= hi <= |infos|
    ensures Run(st, infos, lo, hi) == Run(Run(st, infos, lo, mid), infos, mid, hi)
  {
    FoldSplit(Next, st, infos, lo, mid, hi);
  }

  /** A run that has read the first `i` lines and then raised, or has read
      them all, is the whole parse. */
  lemma {:induction false} RunStopped(st: State, infos: seq<LineInfo>, i: nat)
    requires i <= |infos|
    requires Run(st, infos, 0, i).error.Some? || i == |infos|
    ensures Run(st, infos, 0, |infos|) == Run(st, infos, 0, i)
  {
    RunSplit(st, infos, 0, i, |infos|);
    var now := Run(st, infos, 0, i);
    if now.error.Some? {
      RunAfterError(now, infos, i, |infos|);
    }
  }

  /** The reading of line `k` is entry `k` of the read lines. */
  lemma {:induction false} ClassifyAllAt(lines: seq<string>, k: nat)
    requires k < |lines|
    ensures ClassifyAll(lines)[k] == Classify(lines[k])
    decreases |lines|
  {
    if k < |lines| - 1 {
      ClassifyAllAt(lines[..|lines| - 1], k);
    }
  }

  /** The entries a read line adds to the current record: an ENTRY line its
      parsed entry, a COMMENT line the comment-only entry holding the whole
      line; header and UNKNOWN lines add nothing. */
  function LineEntries(info: LineInfo): seq<Entry> {
    match info
    case EntryRow(e) => [e]
    case CommentRow(text) => [Entry([], Some(text))]
    case _ => []
  }

  /** The entries the read lines `lo` to `hi` add to the current record. */
  function BodyEntries(infos: seq<LineInfo>, lo: nat, hi: nat): seq<Entry>
    requires lo <= hi <= |infos|
    decreases hi - lo
  {
    if hi == lo then [] else BodyEntries(infos, lo, hi - 1) + LineEntries(infos[hi - 1])
  }

  /** No BLOCK or DECAY line among lines `lo` to `hi`: nothing that changes
      the current record. */
  predicate IsBody(infos: seq<LineInfo>, lo: nat, hi: nat)
    requires lo <= hi <= |infos|
  {
    forall k :: lo <= k < hi ==> BodyLine(infos, k)
  }

  /** Read line `k` is no header. */
  predicate BodyLine(infos: seq<LineInfo>, k: int) {
    0 <= k < |infos| && !infos[k].BlockHeader? && !infos[k].DecayHeader?
  }

  /** Appending a run of entries to the current record. */
  function AppendAll(t: Tables, target: Target, es: seq<Entry>): (r: Tables)
    ensures r.blockKeys == t.blockKeys && r.decayKeys == t.decayKeys
    ensures r.blocks.Keys == t.blocks.Keys && r.decays.Keys == t.decays.Keys
  {
    match target
    case NoTarget => t
    case InBlock(n) =>
      if n in t.blocks then t.(blocks := t.blocks[n := t.blocks[n].(entries := t.blocks[n].entries + es)]) else t
    case InDecay(p) =>
      if p in t.decays then t.(decays := t.decays[p := t.decays[p].(entries := t.decays[p].entries + es)]) else t
  }

  /** The first ENTRY line among lines `lo` to `hi`, or `hi`. */
  function FirstEntry(infos: seq<LineInfo>, lo: nat, hi: nat): (k: nat)
    requires lo <= hi <= |infos|
    ensures lo <= k <= hi
    ensures forall j :: lo <= j < k ==> !infos[j].EntryRow?
    ensures k < hi ==> infos[k].EntryRow?
    decreases hi - lo
  {
    if lo == hi then hi
    else if infos[lo].EntryRow? then lo
    else FirstEntry(infos, lo + 1, hi)
  }

  /** The first ENTRY line of a longer span: the same line when the shorter
      span has one. */
  lemma {:induction false} FirstEntryExtend(infos: seq<LineInfo>, lo: nat, hi: nat)
    requires lo < hi <= |infos|
    ensures FirstEntry(infos, lo, hi) == (if FirstEntry(infos, lo, hi - 1) < hi - 1 then FirstEntry(infos, lo, hi - 1)
                                          else if infos[hi - 1].EntryRow? then hi - 1
                                          else hi)
  {
    var k := FirstEntry(infos, lo, hi - 1);
    var k' := FirstEntry(infos, lo, hi);
    if k < hi - 1 {
      assert k' <= k;
    } else if infos[hi - 1].EntryRow? {
      assert k' == hi - 1;
    }
  }

  /** Appending two runs of entries is appending them joined. */
  lemma {:induction false} AppendAllJoin(t: Tables, target: Target, a: seq<Entry>, b: seq<Entry>)
    ensures AppendAll(t, target, a + b) == AppendAll(AppendAll(t, target, a), target, b)
  {
    match target
    case NoTarget =>
    case InBlock(n) =>
      if n in t.blocks {
        assert t.blocks[n].entries + (a + b) == t.blocks[n].entries + a + b;
      }
    case InDecay(p) =>
      if p in t.decays {
        assert t.decays[p].entries + (a + b) == t.decays[p].entries + a + b;
      }
  }

  /** Appending no entry changes nothing. */
  lemma {:induction false} AppendAllNone(t: Tables, target: Target)
    ensures AppendAll(t, target, []) == t
  {
    match target
    case NoTarget =>
    case InBlock(n) =>
      if n in t.blocks {
        assert t.blocks[n].entries + [] == t.blocks[n].entries;
      }
    case InDecay(p) =>
      if p in t.decays {
        assert t.decays[p].entries + [] == t.decays[p].entries;
      }
  }

  /** Appending one entry is `AppendTo`. */
  lemma {:induction false} AppendAllOne(t: Tables, target: Target, e: Entry)
    ensures AppendAll(t, target, [e]) == AppendTo(t, target, e)
  {
  }

  /** A line that is no header adds its entries to the current record. */
  lemma {:induction false} BodyStep(st: State, info: LineInfo, i: nat)
    requires st.error.None? && !st.target.NoTarget?
    requires !info.BlockHeader? && !info.DecayHeader?
    ensures Step(st, info, i) == st.(tables := AppendAll(st.tables, st.target, LineEntries(info)))
  {
    match info
    case EntryRow(e) => AppendAllOne(st.tables, st.target, e);
    case CommentRow(text) => AppendAllOne(st.tables, st.target, Entry([], Some(text)));
    case Skipped => AppendAllNone(st.tables, st.target);
  }

  /** Between headers every ENTRY and COMMENT line goes, in order, to the
      record of the latest header; UNKNOWN lines change nothing. */
  lemma {:induction false} BodyRun(st: State, infos: seq<LineInfo>, lo: nat, hi: nat)
    requires lo <= hi <= |infos|
    requires st.error.None? && IsBody(infos, lo, hi) && !st.target.NoTarget?
    ensures Run(st, infos, lo, hi) == st.(tables := AppendAll(st.tables, st.target, BodyEntries(infos, lo, hi)))
    decreases hi - lo
  {
    if hi > lo {
      BodyRun(st, infos, lo, hi - 1);
      RunLast(st, infos, lo, hi);
      assert BodyLine(infos, hi - 1);
      var es := BodyEntries(infos, lo, hi - 1);
      var s1 := st.(tables := AppendAll(st.tables, st.target, es));
      BodyStep(s1, infos[hi - 1], hi - 1);
      AppendAllJoin(st.tables, st.target, es, LineEntries(infos[hi - 1]));
    } else {
      AppendAllNone(st.tables, st.target);
    }
  }

  /** Before any header the first ENTRY line raises with its 1-based number,
      and COMMENT and UNKNOWN lines before it are dropped. */
  lemma {:induction false} OrphanRun(st: State, infos: seq<LineInfo>, lo: nat, hi: nat)
    requires lo <= hi <= |infos|
    requires st.error.None? && IsBody(infos, lo, hi) && st.target.NoTarget?
    ensures Run(st, infos, lo, hi) == (if FirstEntry(infos, lo, hi) < hi
                                       then st.(error := Some(EntryOutsideBlock(FirstEntry(infos, lo, hi) + 1)))
                                       else st)
    decreases hi - lo
  {
    if hi > lo {
      OrphanRun(st, infos, lo, hi - 1);
      RunLast(st, infos, lo, hi);
      assert BodyLine(infos, hi - 1);
      FirstEntryExtend(infos, lo, hi);
    }
  }
}
