# lhatool in Dafny

A model of `lhatool.py`, a reader and writer for SUSY Les Houches Accord
(SLHA) spectrum files. The class `LHA` keeps two insertion-ordered
dictionaries: named `Block`s of `Entry` rows, and `Decay`s keyed by
particle id (PDG id) whose rows are branching ratios.

- `process_input` reads a file line by line. `linetype` sorts each line
  into BLOCK, DECAY, ENTRY, COMMENT or UNKNOWN.
- A header line stores a fresh record and makes it the current one. ENTRY
  and COMMENT lines are appended to the current record.
- An ENTRY line is split into tokens. `entrytype` classifies each token,
  and the token is converted to an int, a float or a str.
- `write` emits every block, then every decay, each followed by its
  entries.

The modules follow the program's structure:

| file | module | what it holds |
|---|---|---|
| wrappers.dfy | Wrappers | `Option`, `Result` |
| text.dfy | Text | character classes, `str.split()`, `int()`, `'{:d}'`, `str.find`, `str.replace('\n','')` |
| matching.dfy | Matching | the "last pattern that matched wins" loop of both classifiers |
| lines.dfy | Lines | `linetype` |
| tokens.dfy | Tokens | `entrytype`, token conversion, Python `float()` acceptance |
| records.dfy | Records | `Entry`, `Block`, `Decay` as values; their queries and `__str__` |
| headers.dfy | Headers | the `re.search` calls of the BLOCK and DECAY branches, written as the regex engine's scan |
| entries.dfy | Entries | the token loop of the ENTRY branch |
| fold.dfy | Folds | a generic left fold over line positions |
| parse.dfy | Parse | the dictionaries (`Tables`) and the effect of one line (`Step`); a whole parse (`Run`) |
| writer.dfy | Writer | the lines `write` emits |
| lhatool.dfy | LhaTool | class `Lha`: the imperative `process_input`, `write`, `get_*` and `add_*`, each proved against Parse and Writer |
| roundtrip.dfy | RoundTrip | reading back what `write` emits |

The parse is specified as a fold of `Step` over the classified lines. An
exception becomes an `error` in the state, and that error ends the fold.
`Lha.ProcessInput` is a `while` loop over the lines. It is proved to leave
the dictionaries and the error that `Parse.ParseLines` prescribes.
`Lha.Write` has nested loops and is proved to emit `Writer.WrittenLines`.

The main theorem is `RoundTrip.WriteThenRead`. It is about `write` with
`Decay.__str__` corrected as described under Findings; the source's own
decay header does not read back. For every set of dictionaries whose
records can be written faithfully (`Writable`), parsing the written lines
raises nothing. It rebuilds the same dictionaries with
the same key orders, up to two textual normalizations:

- A header comment `c` comes back as `" " + c`.
- An entry comment comes back without inner newlines, plus the line's
  newline.

Floats and widths are written as their token text, not with `'{:.8e}'`
(lhatool.py:271 and :309), so they read back unchanged. Tokens are
classified with the fixed precedence of `Tokens.EntryType`; under CPython
2.7's own iteration order an exponent float would read back as a string
(Findings).

Where the prose description of the format and the code disagree, the model
follows the code, with one exception: `entrytype` uses a fixed precedence in
place of the dictionary's iteration order (Left out and Findings). The header comment is taken with `.group()` of
`(?<=\#)\s(.*)`, at lhatool.py:100-102 and :155-157. That keeps the
whitespace character after `#`, so `BLOCK MASS # masses` stores the
comment `" masses"`, not `"masses"`.

## Model

| member | source | states |
|---|---|---|
| Lines.LineType | lhatool.py:47-59 | The class returned matches its pattern; UNKNOWN only when no pattern matches |
| Lines.LineClassesExclusive | lhatool.py:49-52 | At most one of the four line patterns matches any line |
| Lines.LineTypeAnyOrder | lhatool.py:54-57 | The dictionary loop gives `LineType` in every iteration order, because the classes exclude each other |
| Matching.LastMatchUnique | lhatool.py:54-57 | When exactly one tag matches, the last-match loop ends on it in any order |
| Matching.LastMatchNone | lhatool.py:54-57 | When no tag matches, the loop leaves 'UNKNOWN' |
| Tokens.EntryType | lhatool.py:63-75 | The tag returned matches its pattern; UNKNOWN only when nothing matches |
| Tokens.EntryTypePrecedence | lhatool.py:63-75 | Each tag is returned exactly when its pattern matches and no stronger one does, in the order COMMENT > FLOAT > INT > STRING; this decides where the entry scan stops |
| Tokens.IntTokenExact | lhatool.py:65 | A token is INT exactly when the whole token is an optional sign followed by digits |
| Tokens.IntMatchesAlone | lhatool.py:65-68 | A signed digit run matches none of FLOAT, STRING or COMMENT |
| Tokens.EntryTypeAnyOrder | lhatool.py:70-73 | Where at most one pattern matches, every iteration order gives `EntryType` |
| Tokens.FloatStringOverlap | lhatool.py:66-67 | `1.23456789E+02` matches both FLOAT and STRING: the two iteration orders disagree, and the precedence picks FLOAT |
| Tokens.EntryTypeCPythonOrder | lhatool.py:62-73 | In CPython 2.7's iteration order INT, COMMENT, FLOAT, STRING, the loop reads `1.25000000E+02` and `#mass` as STRING and `1.5#` as FLOAT, which `float()` refuses; the precedence gives FLOAT, COMMENT and COMMENT |
| Tokens.TokenValue | lhatool.py:121-130 | FLOAT, INT and STRING tokens append a value; COMMENT and UNKNOWN append nothing |
| Tokens.PyFloatChars | lhatool.py:123-126 | Text `float()` accepts holds a digit and only signs, digits, points and exponent marks, so never `inf` or `nan` |
| Tokens.IntCanonical | lhatool.py:127-128 | `'{:d}'` of any int is one INT token that `int()` reads back as that int |
| Tokens.ParsedValueCanonical | lhatool.py:120-130 | Every value parsed from a token is written back as a token that re-parses to the same value |
| Text.SpanEnd | lhatool.py:94 | The run of characters satisfying a class ends at the first one that fails it |
| Text.SpanEndRun | lhatool.py:94 | Every character inside the run satisfies the class |
| Text.SpanEndIs | lhatool.py:94 | The run ends exactly at a given first failing position |
| Text.SplitToken | lhatool.py:116 | `str.split()` of a token followed by whitespace yields that token first |
| Text.SplitSpace | lhatool.py:116 | `str.split()` drops leading whitespace |
| Text.IntTextRoundTrip | lhatool.py:128 | `int('{:d}'.format(n)) == n`, and the text is an optional sign plus digits |
| Text.NatToStringValue | lhatool.py:269 | The decimal digits written for n are digits whose value is n |
| Text.IntToStringDigits | lhatool.py:269 | `'{:d}'` writes only a sign and digits |
| Text.StripNewlines | lhatool.py:278 | `replace('\n', '')` leaves no newline, keeps the set of other characters, and keeps a first character that is not a newline |
| Text.StripNewlinesChar | lhatool.py:278 | One character: a newline is dropped, any other character is kept |
| Text.StripNewlinesAppend | lhatool.py:278 | Stripping a concatenation is stripping each part, so the kept characters keep their order and number |
| Text.NoNewlineStripped | lhatool.py:278 | `replace('\n', '')` leaves a text without newlines unchanged |
| Text.Find | lhatool.py:133 | `str.find`: the first index of the character, or -1 exactly when it is absent |
| Headers.BlockName | lhatool.py:94-96 | The block name is `l[j..e]`, where the whitespace after the keyword ends at `j` and the non-whitespace run from `j` ends at `e`; it may be empty |
| Headers.CommentFrom | lhatool.py:100-102 | A found header comment starts with whitespace and holds no newline after it |
| Headers.CommentFromSpan | lhatool.py:100-102 | A comment found from `p` on is `l[q..e]`: `q` is the first position from `p` where whitespace follows a `#`, and `e` is the next newline or the line end |
| Headers.CommentFromNone | lhatool.py:100-102 | A header has no comment exactly when no `#` is followed by whitespace |
| Headers.HeaderComment | lhatool.py:100-102 | A header has a comment exactly when some `#` in it is followed by whitespace; a comment starts with whitespace and holds no later newline |
| Headers.HeaderCommentSpan | lhatool.py:100-102 | The header comment is the whitespace after the first `#` followed by whitespace, and the rest of that line up to a newline |
| Headers.CommentFromSkip | lhatool.py:100 | Positions not preceded by `#` are passed over by the search |
| Headers.WidthEnd | lhatool.py:148 | Group 2 tried at a position, when found, is non-empty and within the line |
| Headers.WidthEndSound | lhatool.py:148 | A width found matches `[+\-]?\d?\.?\d*[Ee][+\-]?\d+` and is followed by a non-digit or the line end |
| Headers.WidthEndComplete | lhatool.py:148 | A width at l[p..n] is found at p, reaching at least n, and exactly n when no digit follows |
| Headers.ShorterPid | lhatool.py:148 | Backtracking into `\d+` gives ordered spans starting at the attempt |
| Headers.DecayAttempt | lhatool.py:148 | A match attempt at a start position yields ordered spans beginning there |
| Headers.DecaySearch | lhatool.py:148 | `re.search` yields ordered spans |
| Headers.IntInText | lhatool.py:150 | Group 1 is an optionally signed digit run, which `int()` accepts |
| Headers.ShorterMatch | lhatool.py:148 | A shorter digit run followed directly by a width is a match of the pattern |
| Headers.ShorterPidSound | lhatool.py:148 | Spans found by backtracking form a match of the pattern |
| Headers.DecayAttemptSound | lhatool.py:148 | Spans found by an attempt form a match of the pattern |
| Headers.DecaySearchSound | lhatool.py:148 | Spans found by the search form a match of the pattern |
| Headers.ShorterPidComplete | lhatool.py:148 | Backtracking succeeds when a width starts inside the digit run |
| Headers.WidthStart | lhatool.py:148 | A width is non-empty and never starts with whitespace |
| Headers.IntInRun | lhatool.py:148 | Group 1 has digits after its optional sign and ends within the digit run there |
| Headers.FullRunFound | lhatool.py:148 | When the whole digit run can be group 1, the attempt takes it |
| Headers.FullRunAt | lhatool.py:148 | The attempt's result when the whole digit run, the spaces and a width line up |
| Headers.ShorterRunFound | lhatool.py:148 | When only a shorter digit run works, backtracking finds one |
| Headers.DecayAttemptComplete | lhatool.py:148 | An attempt at a start where a match exists succeeds |
| Headers.DecaySearchComplete | lhatool.py:148-153 | The search succeeds when an attempt at or after its position succeeds |
| Headers.DecayFieldsExact | lhatool.py:148-153 | The DECAY search finds fields exactly when the line holds a match of the pattern, and returns such a match's groups |
| Headers.DecayFields | lhatool.py:148-151 | Group 1 of a found DECAY match is text `int()` accepts, so `int(params.group(1))` never raises |
| Entries.KeptValuesMembers | lhatool.py:120-130 | The values kept are exactly the conversions of the tokens that have one (FLOAT, INT, STRING) |
| Entries.KeptValuesJoin | lhatool.py:120-130 | Values are kept in token order: two runs of tokens give their values joined |
| Entries.EntryFromTokensAt | lhatool.py:120-134 | One token of the scan: a COMMENT token stops it with the comment; any other token adds its value in front |
| Entries.EntryFromTokensShape | lhatool.py:116-136 | An entry has a comment exactly when some token is COMMENT, and it is the line from its first `#`; its values are the conversions of the tokens before the first COMMENT, UNKNOWN dropped, in order |
| Entries.SplitChars | lhatool.py:116 | Every character of a token occurs in the line |
| Entries.CommentOfLine | lhatool.py:131-134 | An entry comment is `line[line.find('#'):]` with `find` non-negative, and it starts with `#` |
| Entries.EntryOf | lhatool.py:116-136 | An ENTRY line's entry has a comment exactly when one of its tokens is COMMENT, taken from the first `#`, and the values of the tokens before that token |
| Records.LookupHoldsOnePair | lhatool.py:252-255 | `lookup` holds one pair exactly when the entry has two values, mapping the first value to the second |
| Records.EntryByKey | lhatool.py:225-229 | `get_entry_by_key` fails exactly when no entry has two values with that key first; otherwise it returns the second value of the first such entry |
| Records.EntryByKeyAppend | lhatool.py:221-229 | Appending an entry never changes an answer the block already gives |
| Records.Block.Add | lhatool.py:221-222 | `Block.add` appends the entry as the last one; the title, the comment and every earlier entry stay |
| Records.EntryByKeyNew | lhatool.py:221-229 | After a key no entry carried, an appended entry carrying it answers `get_entry_by_key` |
| Records.BlockAddQueries | lhatool.py:221-234 | After `Block.add`, every earlier `get_entry_by_key` answer stays, an unknown key carried by the new entry is answered by it, and the new entry is the last by index |
| Records.BranchingRatio | lhatool.py:299-305 | `get_branching_ratio` fails exactly when no row has at least four values with those ids third and fourth; otherwise it returns the first value of the first such row |
| Records.BranchingRatioOrderSensitive | lhatool.py:301-302 | The row for (a, b) answers (a, b) and not (b, a) |
| Records.Decay.Add | lhatool.py:142 | Appending a row to a decay keeps its id, width, comment and earlier rows, and adds the row last |
| Records.BranchingRatioAppend | lhatool.py:299-305 | Appending a row never changes a branching ratio the rows already give |
| Records.DecayAddQueries | lhatool.py:299-305 | A decay keeps every branching ratio it gave after a row is appended |
| Records.RenderValuesEmpty | lhatool.py:267-273 | The values are written as nothing exactly when there are none |
| Records.RenderValuesNoNewline | lhatool.py:267-273 | The written values hold no newline when no single value's text holds one |
| Records.RenderEntryLayout | lhatool.py:262-280 | `Entry.__str__` starts with the written values and adds no newline: the comment loses its newlines |
| Records.RenderBlockHeaderLayout | lhatool.py:214-219 | `Block.__str__` is `BLOCK`, a tab and the title first, with no newline unless title or comment holds one |
| Records.RenderDecayHeaderLayout | lhatool.py:307-312 | The corrected `Decay.__str__` starts with `DECAY` and a tab, with no newline unless width or comment holds one |
| Records.RenderDecayHeaderAsWritten | lhatool.py:307-312 | As written, `Decay.__str__` is the corrected header followed by `\t# None` for no comment, or by a second copy of the comment |
| Records.Block.GetEntryByIndexAsWritten | lhatool.py:231-234 | As written: raises exactly when index >= the entry count, and otherwise returns None |
| Records.Block.GetEntryByIndex | lhatool.py:231-234 | Corrected: returns the entry under Python's list indexing (negative from the end); raises exactly outside [-count, count) |
| Parse.EmptyWellFormed | lhatool.py:14-15 | Empty ordered dictionaries are well formed |
| Parse.PutBlock | lhatool.py:104 | Storing a block under its title appends a new title to the order; a known one keeps its slot and its record is replaced; decays unchanged |
| Parse.PutDecay | lhatool.py:160 | Storing a decay under its id: the same ordering rule; blocks unchanged |
| Parse.PutBlockWellFormed | lhatool.py:40-41 | Storing a block keeps every key listed once and every record under its own title |
| Parse.PutDecayWellFormed | lhatool.py:43-44 | Storing a decay keeps the dictionaries well formed |
| Parse.AppendTo | lhatool.py:142 | Appending to the current record changes only that record's entries (one more at the end); no keys or orders change |
| Parse.AppendToWellFormed | lhatool.py:142 | Appending keeps the dictionaries well formed |
| Parse.DecayParams | lhatool.py:148-153 | The DECAY fields are present exactly when the search matched |
| Parse.ClassifyAll | lhatool.py:87-89 | One reading per input line |
| Parse.ClassifyAllAppend | lhatool.py:87 | Reading two runs of lines is reading them joined |
| Parse.ClassifyAllAt | lhatool.py:87-89 | Reading k of the lines is the reading of line k |
| Parse.Step | lhatool.py:89-174 | A line that raises leaves the dictionaries as they were |
| Parse.StepValid | lhatool.py:89-174 | Every line keeps the dictionaries well formed and the current record stored |
| Parse.RunValid | lhatool.py:87-177 | Every run keeps the dictionaries well formed and the current record stored |
| Parse.RunLast | lhatool.py:87 | The last line of a run is one more step unless the run has raised |
| Parse.ParseLines | lhatool.py:79-177 | `process_input` of no lines changes nothing; on well-formed dictionaries it leaves them well formed, with the current record stored |
| Parse.BlockLineStep | lhatool.py:92-105 | A BLOCK line never raises; the named block starts afresh, replacing one of that name in its slot or appended last, and becomes current |
| Parse.DecayLineStep | lhatool.py:146-161 | A DECAY line raises `Invalid DECAY block` with its 0-based number when the search fails, and float()'s error on a bad width; otherwise the decay under the parsed id starts afresh in its slot and becomes current |
| Parse.RunAfterError | lhatool.py:87-177 | After an exception no further line changes anything |
| Parse.RunSplit | lhatool.py:87 | Parsing lines lo..mid and then mid..hi is parsing lo..hi |
| Parse.RunStopped | lhatool.py:87 | A parse that raised at line i, or read every line, is the whole parse |
| Parse.AppendAll | lhatool.py:142 | Appending a run of entries changes no key or order |
| Parse.FirstEntry | lhatool.py:111-114 | The first ENTRY line of a span: none before it, and it is one |
| Parse.FirstEntryExtend | lhatool.py:111-114 | The first ENTRY line of a longer span |
| Parse.AppendAllJoin | lhatool.py:142 | Appending two runs is appending them joined |
| Parse.AppendAllNone | lhatool.py:142 | Appending nothing changes nothing |
| Parse.AppendAllOne | lhatool.py:142 | Appending one entry is `AppendTo` |
| Parse.BodyStep | lhatool.py:111-174 | A non-header line adds its entries to the current record |
| Parse.BodyRun | lhatool.py:111-174 | Between headers, ENTRY and COMMENT lines are appended in order to the record of the latest header; UNKNOWN lines change nothing |
| Parse.OrphanRun | lhatool.py:111-174 | Before any header, the first ENTRY line raises `Entry w/o block` with its 1-based number, and COMMENT lines before it are dropped |
| Folds.FoldSplit | lhatool.py:87 | Folding over lo..mid and then mid..hi is folding over lo..hi |
| Folds.FoldFixed | lhatool.py:87 | A state every step fixes stays fixed |
| Folds.FoldKeeps | lhatool.py:87 | A property every step keeps holds after the fold |
| Writer.EntryLines | lhatool.py:192-199 | One written line per entry |
| Writer.EntryLinesAt | lhatool.py:192-199 | Written entry line k is entry k rendered, followed by a newline |
| Writer.BlockLinesPrefix | lhatool.py:190-193 | Each further block's section follows those of the blocks before it |
| Writer.DecayLinesPrefix | lhatool.py:196-199 | Each further decay's section follows those of the decays before it |
| Writer.BlockLinesCount | lhatool.py:190-193 | Each block is written as its header plus one line per entry |
| Writer.DecayLinesCount | lhatool.py:196-199 | Each decay is written as its header plus one line per entry |
| Writer.WrittenLines | lhatool.py:180-199 | `write` emits exactly one line per record and one per entry, nothing else |
| Writer.BlockSectionIn | lhatool.py:190-193 | The section of the block under key i sits right after those of the keys before it |
| Writer.DecaySectionIn | lhatool.py:196-199 | The section of the decay under key i sits right after those of the keys before it |
| Writer.BlockSectionPlace | lhatool.py:190-193 | Block i, in dictionary order, is written right after blocks 0..i-1, from the first line on |
| Writer.DecaySectionPlace | lhatool.py:196-199 | Decay i, in dictionary order, is written after all blocks and decays 0..i-1 |
| LhaTool.Lha.constructor | lhatool.py:11-15 | The object starts with both dictionaries empty |
| LhaTool.Lha.GetBlock | lhatool.py:27-31 | Returns the block stored under the name, whose title is that name; a KeyError exactly when there is none |
| LhaTool.Lha.GetDecay | lhatool.py:33-37 | Returns the decay stored under the id, whose pdgid is that id; a KeyError exactly when there is none |
| LhaTool.Lha.AddBlock | lhatool.py:40-41 | The new state is `PutBlock` of the old one; the dictionaries stay well formed |
| LhaTool.Lha.AddDecay | lhatool.py:43-44 | The new state is `PutDecay` of the old one; the dictionaries stay well formed |
| LhaTool.Lha.Append | lhatool.py:142 | The new state is the old one with the entry appended to the current record |
| LhaTool.Lha.ParseEntry | lhatool.py:116-136 | The loop builds exactly `EntryOf(line)` |
| LhaTool.Lha.ProcessLine | lhatool.py:89-177 | One loop iteration yields exactly `Step` on the line's reading, and keeps the current record stored |
| LhaTool.Lha.ProcessInput | lhatool.py:79-177 | The loop leaves the dictionaries and the exception of `ParseLines` on the old dictionaries, and keeps them well formed |
| LhaTool.Lha.WriteEntries | lhatool.py:192-199 | The inner loop emits exactly `EntryLines` |
| LhaTool.Lha.Write | lhatool.py:180-199 | Emits exactly `WrittenLines`: all block sections in dictionary order, then all decay sections in dictionary order, each decay header in the corrected form of `Decay.__str__` (see Findings) |
| RoundTrip.RenderValuesJoin | lhatool.py:267-273 | `Entry.__str__` writes each value as its token after a tab |
| RoundTrip.CanonicalTokens | lhatool.py:267-273 | Canonical values are written as whitespace-free tokens |
| RoundTrip.TabToken | lhatool.py:116 | Splitting a tab and a token gives that token |
| RoundTrip.SplitTabs | lhatool.py:267-273 | Tab-joined value tokens split back into those tokens |
| RoundTrip.NoHashInValues | lhatool.py:267-273 | Written canonical values contain no `#` |
| RoundTrip.CanonicalReads | lhatool.py:120-130 | A canonical value's token is no COMMENT and converts back to the value |
| RoundTrip.ScanValues | lhatool.py:120-134 | The token scan reads the written value tokens back as the values |
| RoundTrip.FindAfter | lhatool.py:133 | `find` past a prefix without the character |
| RoundTrip.TabLeadIsEntry | lhatool.py:51 | A tab and a value that starts with a digit or a signed digit make an ENTRY line |
| RoundTrip.CommentTextIsComment | lhatool.py:52 | A text whose first non-blank character is `#` makes a COMMENT line |
| RoundTrip.HashTail | lhatool.py:131-134 | A `#` token after the values ends the scan with the comment |
| RoundTrip.CommentAfterValues | lhatool.py:133 | The comment read back from a written entry line is the written comment plus the line's newline |
| RoundTrip.ValuesLine | lhatool.py:267-273 | Written values make an ENTRY line whose tokens are the values' tokens |
| RoundTrip.ValuesEntryRead | lhatool.py:111-136 | A written entry line with values is read back as those values and the comment plus newline |
| RoundTrip.EntryLineRead | lhatool.py:111-174 | Every writable entry, written, is read back as itself normalized, by an ENTRY or a COMMENT line |
| RoundTrip.HeaderCommentRead | lhatool.py:100-102 | The `\t# c` segment of a header is read back as `" " + c`; no segment, no comment |
| RoundTrip.SomeCommentRead | lhatool.py:100-102 | A `\t# c` segment after a prefix without `#` is read as `" " + c` |
| RoundTrip.BlockHeaderRead | lhatool.py:92-102 | A written BLOCK header is read back as its title and its comment |
| RoundTrip.WidthAt | lhatool.py:148 | A written width is read as group 2 |
| RoundTrip.AttemptAtPid | lhatool.py:148 | The match attempt at a written id takes the whole id and the width after the tab |
| RoundTrip.NoAttemptInKeyword | lhatool.py:148 | No match starts inside `DECAY\t` |
| RoundTrip.DecayFieldsRead | lhatool.py:148-151 | The DECAY search on a written header returns the written id and width |
| RoundTrip.DecayTextRead | lhatool.py:146-151 | A written DECAY header is a DECAY line whose id and width read back |
| RoundTrip.DecayHeaderRead | lhatool.py:146-157 | The corrected DECAY header is read back as the decay's id, width and comment |
| RoundTrip.DecayCommentedRead | lhatool.py:155-157 | A `\t# x` segment after a written id and width is read as `" " + x` |
| RoundTrip.DecayHeaderAsWrittenRead | lhatool.py:307-312 | The header as written reads back with comment `" None"` for a decay without comment, and `" c\tc"` for comment c |
| RoundTrip.BlockRun | lhatool.py:92-142 | A block header and its entry lines store that block, entries normalized, as the current one |
| RoundTrip.DecayRun | lhatool.py:142-161 | A decay header and its entry lines store that decay, entries normalized |
| RoundTrip.EntryLinesRead | lhatool.py:192-199 | Written entry lines, read, add their entries one each |
| RoundTrip.BlockSectionRead | lhatool.py:190-193 | A written block section is read as its header and then its entries |
| RoundTrip.DecaySectionRead | lhatool.py:196-199 | A written decay section is read as its header and then its entries |
| RoundTrip.BlockLinesRead | lhatool.py:190-193 | The written block part is read as the blocks' sections in order |
| RoundTrip.DecayLinesRead | lhatool.py:196-199 | The written decay part is read as the decays' sections in order |
| RoundTrip.BlocksRun | lhatool.py:87-142 | Parsing the block part raises nothing and stores the blocks in key order |
| RoundTrip.DecaysRun | lhatool.py:87-161 | Parsing the decay part raises nothing and stores the decays in key order |
| RoundTrip.PutBlocksInOrder | lhatool.py:40-41 | Storing blocks under distinct keys, one by one, rebuilds that order |
| RoundTrip.PutDecaysInOrder | lhatool.py:43-44 | Storing decays under distinct keys, one by one, rebuilds that order |
| RoundTrip.ReadOrderIsNormalized | lhatool.py:14-15 | Storing all blocks and then all decays in their orders gives the normalized dictionaries |
| RoundTrip.WrittenSectionsRead | lhatool.py:180-199 | The written lines, read, are the block sections from line 0 and the decay sections after them, and nothing else |
| RoundTrip.WrittenSectionsRun | lhatool.py:87-177 | Parsing those sections from empty dictionaries raises nothing and stores blocks, then decays |
| RoundTrip.WriteThenRead | lhatool.py:79-199 | `process_input(write(t))` raises nothing and rebuilds t, orders included, up to comment normalization, for every writable t, where `write` uses the corrected `Decay.__str__` |
| RoundTrip.WrittenLinesAreLines | lhatool.py:180-199 | For writable t, every string `write` emits ends with its only newline, so reading the file back gives exactly those strings as lines |

## Left out

- File handling is not modelled: `open`, `readlines`, `fout.write`, closing the file, and the `file`/`str` dispatch of `__init__` and `write`. `ProcessInput` takes the lines. `Write` returns the strings it would write, one per `fout.write` call.
- `DEBUG` printing (lhatool.py:107-108, 139-140, 163-164, 176-177, and 257-258 in `Entry.__init__`) is left out, because `DEBUG` is `False`.
- The `__main__` script after the classes is not part of this model.
- Floats are kept as the token text `float()` accepted (`Value.Flt`). The model does no floating-point arithmetic and does not model the `'{:.8e}'` formatting of `Entry.__str__` and `Decay.__str__`. A float, and a decay's width, is written back as its own text.
- `Tokens.IsPyFloat` models Python's `float()` on the decimal grammar only. No FLOAT token or DECAY width can spell `inf` or `nan`, because both patterns need digits.
- `Records.BranchingRatio` takes `int` ids. The source converts its arguments with `int(id1)` and `int(id2)` (lhatool.py:302), so it also accepts text such as `"25"` or a float such as `25.9`. That conversion is not modelled.
- Python's cross-type equality is not modelled: `1 == 1.0` and a float key matching an int key in `lookup` or `get_branching_ratio`. Values compare by constructor and text.
- `Tokens.EntryType` and `Tokens.EntryTypePrecedence` fix the precedence COMMENT > FLOAT > INT > STRING where the token patterns overlap. This is not CPython 2.7's behaviour. Without hash randomization, CPython 2.7 iterates the dictionary at lhatool.py:62-65 as INT, COMMENT, FLOAT, STRING, so the last-match loop ranks STRING > FLOAT > COMMENT > INT (`Tokens.EntryTypeCPythonOrder`). There, `1.25000000E+02` (any exponent float) is read as a string, not a float. `#mass` is a string value and the scan goes on, where the model ends it with a comment. `1.5#` is FLOAT, `float()` refuses it, and it is kept as a string, where the model reads a comment. `RoundTrip.WriteThenRead` and `Tokens.ParsedValueCanonical` hold under the fixed precedence only. The iteration order itself is a parameter of the LastMatch lemmas (`Lines.LineTypeAnyOrder`, `Tokens.EntryTypeAnyOrder`); for `linetype` it does not matter, because the line classes exclude each other.
- The `'VERSION'` tag tested at lhatool.py:129 is never produced by `entrytype`, so that branch is not modelled.
- The `Unnamed block` exception at lhatool.py:98 cannot be raised: the lookbehind search always matches on a BLOCK line. `Headers.BlockName` returns the possibly empty name.
- `GetBlock`/`GetDecay` model the `KeyError` of the dictionary lookup as `NoSuchBlock`/`NoSuchDecay`. The later `if not blk` test never fires, because a record object is always true.
- Records are values. The object identity that lets `current_decay_or_block` keep pointing at a record after a later header replaces it is modelled by the key of the current record. The two agree, because a header that replaces a record also makes the new record current. The model does not capture aliasing: in the source, `get_block`/`get_decay` return the stored object and `add_block`/`add_decay` store the caller's object, so a later `add` on that object changes the dictionaries. In the model, `LhaTool.Lha.GetBlock` and `LhaTool.Lha.GetDecay` return copies, and `Records.Block.Add` returns a new record that must be stored again with `LhaTool.Lha.AddBlock`.
- `Parse.AppendTo` and `Parse.AppendAll`: total functions that do nothing for a target that is not stored. `Parse.StepValid` shows that case never arises.
- `Entries.CommentOf`: keeps Python's slice `line[-1:]` for a missing `#`, to stay total. `Entries.CommentOfLine` shows a `#` is always present when it is used.
- `RoundTrip.WriteThenRead` holds for `Writable` dictionaries only. Values must be canonical tokens, with the first value starting an entry. Entry comments must start with `#` where the reader needs it. Header comments must hold no newline (`WritableComment`). Titles must be single tokens without `#`. Widths must have the DECAY pattern's shape and be accepted by `float()` (`IsPyFloat`). Blocks of other dictionaries are written as the source writes them, but need not read back.
- `LhaTool.Lha.Write` and `Writer.DecaySection` write the decay header in the corrected form `Records.RenderDecayHeader` from Findings, not as the source's `Decay.__str__` does (`Records.RenderDecayHeaderAsWritten`). `RoundTrip.WriteThenRead` is therefore about the corrected `write`; for the source's `write`, `RoundTrip.DecayHeaderAsWrittenRead` shows what a decay header reads back as.
- `RoundTrip.DecayHeaderAsWrittenRead`: states only the header comment read back from the as-written header, not its id and width.

## Findings

| source | as written | input that shows it | evidently intended | confidence | as-written member | corrected member |
|---|---|---|---|---|---|---|
| lhatool.py:231-234 | `get_entry_by_index` checks the bound and then falls off the end, returning `None` | a block with one entry, `get_entry_by_index(0)` returns `None` | `return self.entries[index]` after the check | not executed | Records.Block.GetEntryByIndexAsWritten | Records.Block.GetEntryByIndex |
| lhatool.py:62-73 | `entrytype` keeps the last pattern that matches, in CPython 2.7's iteration order INT, COMMENT, FLOAT, STRING | `1.25000000E+02`, a float in exponent form as SLHA files write them, is read as the string `"1.25000000E+02"`; `#mass` is read as a value | FLOAT wins over STRING for numbers, and a `#` token starts the comment | not executed; the order is derived from CPython 2.7's string hash | Tokens.EntryTypeCPythonOrder | Tokens.EntryTypePrecedence |
| lhatool.py:307-312 | `Decay.__str__` always formats `\t# {}` with the comment and then appends the comment again | a decay without comment is written `DECAY\t25\t…\t# None`, read back with comment `" None"`; comment `c` is written twice | print the comment segment once, only when there is one, as `Block.__str__` does | not executed | RoundTrip.DecayHeaderAsWrittenRead (on Records.RenderDecayHeaderAsWritten) | RoundTrip.DecayHeaderRead (on Records.RenderDecayHeader) |
