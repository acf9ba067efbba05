# incremark streaming Markdown core, in Dafny

incremark renders Markdown while it is still streaming in. A chunk of text
is appended to a buffer, and the parser commits the blocks that can no
longer change. A transformer then reveals committed blocks a few characters
at a time. A Svelte helper places a typing cursor at the end of the
partially revealed tree. This project models that core and proves what it
promises.

The modules follow the program's own layout:

- `Text` and `Types` hold the character classes behind the detector's
  regular expressions and the shared records. JavaScript's `\s` is an
  explicit set of characters; one character stands for one UTF-16 code
  unit. The records are `BlockContext`, `ParsedBlock`, `ContainerConfig`,
  `SourceBlock`, `DisplayBlock`, plugins, and the Markdown tree `Node`
  (a `Leaf` or a `Parent` with children).
- `Detector` is the line classifier (fences, headings, thematic breaks,
  list items, block quotes, `:::` containers) and the copy-on-write context
  transition `UpdateContext`. The regular expressions are modelled as
  written, not as CommonMark states them. For example, a fence opener may
  follow any amount of leading whitespace, and a thematic break has no
  interior spaces.
- `Lines`, `Boundary`, `Blocks` and `Parser` model `IncremarkParser`:
  - the line buffer with its prefix-sum offsets;
  - the stability verdict for each line and the scan for the last stable
    boundary;
  - turning parsed nodes into numbered blocks;
  - the class itself, whose methods change its fields in place.

  The Markdown grammar engine is a function-valued field `parse` supplied
  at construction; nothing about Markdown grammar is assumed.
- `AstUtils` holds character counting and AST truncation, each as a
  recursive method proved equal to a specification function.
- `Plugins` holds the built-in count and slice overrides.
- `Transformer` is the `BlockTransformer` class: a first-in-first-out queue
  of blocks with a current block and its progress.
- `Cursor` is the Svelte cursor helper.

Some behaviours of the code are reproduced on purpose and proved:

- A fence that closes inside a container still yields a boundary, because
  the fence exit is examined before the container exit
  (`Boundary.FenceCloseInContainer`).
- Pending blocks consume block numbers on every append, and the numbering
  restarts after `reset`. Ids are still distinct and increasing among the
  blocks a parser holds (`Parser.IncremarkParser.IdsDistinct`).
- `countChars` gives 0 to a leaf with neither a value nor children, while
  `sliceAst` charges such a leaf one unit. A paragraph of the text `ab`
  followed by an image therefore counts 2, yet truncating it at 2 keeps
  the text and drops the image (`AstUtils.BareLeafNotShownAtTotal`).

One behaviour is reproduced although it is evidently unintended; see
"## Findings". `nodesToBlocks` stores the grammar engine's positions as the
block's `startOffset` and `endOffset` unchanged. The engine counts them from
the start of the text it parsed, not from the start of the document. The
code then cuts `rawText` at those positions minus the text's document
offset, so every block parsed at a positive offset gets the wrong raw text:
`render("a\n\nb")` gives the block `b` the offsets 0..1 and an empty raw
text. The block functions take an explicit `shift` added to the engine's
positions. The parser model passes `shift = 0`, the code as written
(`Blocks.RawTextMisCut`), so every parser contract below speaks of the
offsets and raw texts the code produces. The intended reading,
`shift` = the text's document offset, is proved separately: a block's
offsets are then document offsets and its raw text is the document between
them (`Blocks.ShiftedBlockInDocument`).

## Model

| member | source | states |
|---|---|---|
| Text.LeadingWs | packages/core/src/detector/index.ts:11 | the length of the longest all-whitespace prefix that `^(\s*)` captures: whitespace before it, none at it |
| Text.Run | packages/core/src/detector/index.ts:11 | the length of the maximal run of one character starting at an index, as a `{n,}` repetition consumes it |
| Text.DigitRun | packages/core/src/detector/index.ts:16 | the maximal run of decimal digits starting at an index |
| Text.NameRun | packages/core/src/detector/index.ts:142 | the longest prefix of `[\w-]` characters |
| Text.FirstTerminator | packages/core/src/detector/index.ts:142 | the first line terminator, which is where `.*` stops; none before it |
| Text.TrailingWs | packages/core/src/detector/index.ts:142 | the longest all-whitespace suffix |
| Text.Trim | packages/core/src/detector/index.ts:82 | `trim()`: no longer than the input, no whitespace at either end, empty exactly when the input is all whitespace |
| Text.TrimSlice | packages/core/src/detector/index.ts:82 | `trim()` returns a slice of the input, and what it cuts off before and after that slice is all whitespace |
| Text.NatToStringInjective | packages/core/src/parser/IncremarkParser.ts:68 | the decimal rendering of a counter is injective |
| Types.NodesOf | packages/core/src/parser/IncremarkParser.ts:327 | the nodes of a block list, one per block, in order |
| Detector.DetectFenceStart | packages/core/src/detector/index.ts:34-42 | a fence opener is three or more backticks or tildes after leading whitespace; the length is the whole run: the line ends after it or the next character is not the fence character |
| Detector.FenceStartMeaning | packages/core/src/detector/index.ts:11 | a line opens a fence exactly when some leading-whitespace prefix is followed by three equal fence characters |
| Detector.FenceEndMeaning | packages/core/src/detector/index.ts:47-60 | with a fence open, a line closes it exactly when 0-3 whitespace, at least `fenceLength` copies of `fenceChar`, then only whitespace |
| Detector.FenceEndNeedsOpenFence | packages/core/src/detector/index.ts:48-50 | a fence end is only detected while a fence with a character and a length is open |
| Detector.ThematicBreakMeaning | packages/core/src/detector/index.ts:81-83 | the trimmed line is three or more of one of `*`, `-`, `_`, with nothing between them |
| Detector.IsListItemStart | packages/core/src/detector/index.ts:88-102 | the unordered form is tried first; indent is the leading whitespace length; ordered exactly when an ordered marker follows and no unordered one does |
| Detector.OrderedMarkerMeaning | packages/core/src/detector/index.ts:16 | an ordered marker is 1-9 digits, then `.` or `)`, then whitespace |
| Detector.ScanContainer | packages/core/src/detector/index.ts:146 | a marker run is at least the minimum length |
| Detector.MinLengthOf | packages/core/src/detector/index.ts:138 | an absent or zero `minMarkerLength` becomes 3, so the minimum is never below 1 |
| Detector.DetectContainer | packages/core/src/detector/index.ts:136-167 | a match's marker length is at least the configured minimum |
| Detector.ScanTailBare | packages/core/src/detector/index.ts:146 | the text after a marker run captures neither name nor attributes exactly when it is all whitespace |
| Detector.ScanNamedNotBare | packages/core/src/detector/index.ts:146 | a non-whitespace tail always captures a name or attributes |
| Detector.AttrTextNonEmpty | packages/core/src/detector/index.ts:146 | captured attributes that start with a non-space are never empty |
| Detector.ScanEndMeaning | packages/core/src/detector/index.ts:146-158 | the scan is bare (an end marker) exactly when the line is whitespace, a long enough marker run, then whitespace |
| Detector.ScanContainerBare | packages/core/src/detector/index.ts:146-158 | the same end condition stated on the marker run at the leading-whitespace position |
| Detector.ContainerEndMeaning | packages/core/src/detector/index.ts:156-158 | `isEnd` holds exactly when there is neither a name nor attributes |
| Detector.AllowedNamesFilter | packages/core/src/detector/index.ts:160-164 | an allowed-names list rejects only non-end markers whose name is not listed; every other scan is returned unchanged |
| Detector.CreateInitialContext | packages/core/src/detector/index.ts:227-235 | the initial context is outside fences and containers at depth 0 |
| Detector.ResolveContainers | packages/core/src/detector/index.ts:247-248 | containers are off exactly when the option is absent or `false`; `true` means an empty configuration |
| Detector.InitialContextWellFormed | packages/core/src/detector/index.ts:227-235 | the initial context is well formed: fence fields present iff in a fence, container fields present iff in a container with positive depth |
| Detector.UpdateContext | packages/core/src/detector/index.ts:240-299 | `updateContext`: a fence change leaves the container fields alone; the container depth changes only outside fences, by one, or from 0 to 1 when a container opens; the list and blockquote depths are carried over |
| Detector.UpdateContextPreservesWellFormed | packages/core/src/detector/index.ts:240-299 | every transition keeps the context well formed |
| Detector.UpdateInsideFence | packages/core/src/detector/index.ts:251-258 | inside a fence only a fence end changes the context, clearing the three fence fields and nothing else |
| Detector.FenceStartWins | packages/core/src/detector/index.ts:260-266 | outside a fence, a fence opener enters the fence with its character and length, before any container rule and even inside a container |
| Detector.ContainersDisabledFrame | packages/core/src/detector/index.ts:269 | with containers off, no container field ever changes |
| Detector.ContainerNesting | packages/core/src/detector/index.ts:270-285 | inside a container, an end marker at least the stored length decrements the depth and clears the container at 0; a nested start increments it |
| Lines.Split | packages/core/src/parser/IncremarkParser.ts:106 | `split('\n')` yields at least one line |
| Lines.FirstNewline | packages/core/src/parser/IncremarkParser.ts:106 | the position of the first newline, or the length when there is none |
| Lines.BeforeFirstNewline | packages/core/src/parser/IncremarkParser.ts:106 | no newline occurs before that position |
| Lines.SplitNoNewlines | packages/core/src/parser/IncremarkParser.ts:106 | no split line contains a newline |
| Lines.JoinSplit | packages/core/src/parser/IncremarkParser.ts:106 | joining the split lines with newlines gives back the text |
| Lines.SplitJoin | packages/core/src/parser/IncremarkParser.ts:297 | splitting newline-free lines joined by newlines gives back the lines |
| Lines.JoinAt | packages/core/src/parser/IncremarkParser.ts:297 | the joined text is the lines before `i`, each with its newline, followed by the join of the rest |
| Lines.OffsetIsPrefixLength | packages/core/src/parser/IncremarkParser.ts:107-110 | each line offset is the length of the text before that line |
| Lines.LineOffsetsPush | packages/core/src/parser/IncremarkParser.ts:109 | pushing a line and `previous offset + length + 1` keeps the offsets a prefix sum |
| Lines.SplitExtends | packages/core/src/parser/IncremarkParser.ts:114-129 | when the buffer grows, its lines are the old lines but the last, followed by a re-split of the text from the old last line's offset |
| Lines.OffsetLocatesText | packages/core/src/parser/IncremarkParser.ts:115-116 | a line's offset splits the buffer into the text before the line and the join of the line onwards |
| Boundary.OptionOf | packages/core/src/parser/IncremarkParser.ts:71-75 | the resolved container configuration, passed back as an option, resolves to itself |
| Boundary.CheckStability | packages/core/src/parser/IncremarkParser.ts:190-249 | the verdict is -1, `i-1` or `i`; line 0 gives -1; `i-1` exactly when the previous line is a heading or break, or, before the last line, a non-empty previous line followed by a block start; `i` only for a blank line after a non-blank one, before the last line |
| Boundary.EmptyLineStartsNothing | packages/core/src/parser/IncremarkParser.ts:210-240 | a blank line never starts a new block |
| Boundary.BlankLineEndsBlock | packages/core/src/parser/IncremarkParser.ts:244-246 | a blank line after a non-blank one that is neither heading nor break, and not last, is itself the boundary |
| Boundary.Transition | packages/core/src/parser/IncremarkParser.ts:154 | the scan's transition is `updateContext` under the resolved configuration |
| Boundary.Verdicts | packages/core/src/parser/IncremarkParser.ts:180 | the scan's verdict is `checkStability` for every buffered line and -1 beyond |
| Boundary.Stabilities | packages/core/src/parser/IncremarkParser.ts:180 | one verdict per line, each the verdict for that line |
| Boundary.VerdictsShaped | packages/core/src/parser/IncremarkParser.ts:190-249 | every verdict is -1, the line or the line before it, and -1 at line 0 |
| Boundary.StabilitiesShape | packages/core/src/parser/IncremarkParser.ts:190-249 | so is every entry of the verdict table |
| Boundary.Candidate | packages/core/src/parser/IncremarkParser.ts:156-184 | when no fence or container exit decides the line, the candidate is the stability verdict; otherwise it is -1 or the line |
| Boundary.RunLinesAppend | packages/core/src/parser/IncremarkParser.ts:154 | running the transition over one more line is one more transition |
| Boundary.RunLinesWellFormed | packages/core/src/parser/IncremarkParser.ts:148-154 | running the transition over any lines keeps the context well formed |
| Boundary.RunLinesConcat | packages/core/src/parser/IncremarkParser.ts:148-154 | running over `a + b` is running over `a`, then over `b` |
| Boundary.ScanTemp | packages/core/src/parser/IncremarkParser.ts:146-154 | the scan's working context after line `j` is the transition run over the lines from the start |
| Boundary.CandidateRange | packages/core/src/parser/IncremarkParser.ts:156-184 | a line's candidate is -1 or lies between the line before it and the line, below the last line |
| Boundary.ScanRange | packages/core/src/parser/IncremarkParser.ts:148-187 | the scan's result is -1 or at least `start - 1` and before the last line |
| Boundary.ScanIsLargestCandidate | packages/core/src/parser/IncremarkParser.ts:148-187 | the scan returns the largest candidate seen, or -1; candidates never make it decrease |
| Boundary.QuietLine | packages/core/src/parser/IncremarkParser.ts:164-178 | a line that is outside fences and containers before and after leaves the context unchanged |
| Boundary.TransitionIsQuiet | packages/core/src/parser/IncremarkParser.ts:164-178 | the real transition has that property for every line |
| Boundary.ScanSnapshot | packages/core/src/parser/IncremarkParser.ts:156-184 | the context saved with the boundary is the context after the boundary line |
| Boundary.CandidateOutsideFence | packages/core/src/parser/IncremarkParser.ts:164-165 | a line after which the scan is still in a fence contributes no boundary |
| Boundary.CandidateInsideContainer | packages/core/src/parser/IncremarkParser.ts:156-178 | a line after which the scan is still in a container contributes a boundary only when it closed a fence |
| Boundary.FenceCloseInContainer | packages/core/src/parser/IncremarkParser.ts:156-162 | a fence closing inside a container, before the last line, is a boundary at that line |
| Boundary.LastLineExitIsNotStable | packages/core/src/parser/IncremarkParser.ts:156-174 | leaving a fence or container on the last buffered line gives no boundary there |
| Boundary.ScanOutsideFence | packages/core/src/parser/IncremarkParser.ts:164-165 | a scan started outside a fence saves a context outside a fence |
| Blocks.BlockId | packages/core/src/parser/IncremarkParser.ts:67-69 | every id has the form `block-N` |
| Blocks.BlockIdInjective | packages/core/src/parser/IncremarkParser.ts:67-69 | distinct counters give distinct ids |
| Blocks.NumberedDistinct | packages/core/src/parser/IncremarkParser.ts:67-69 | blocks numbered by an increasing sequence have distinct ids |
| Blocks.Range | packages/core/src/parser/IncremarkParser.ts:68 | the numbers `++counter` hands out: `lo+1`, `lo+2`, ... |
| Blocks.NumbersPrefix | packages/core/src/parser/IncremarkParser.ts:303 | a prefix of an increasing bounded numbering is increasing and bounded |
| Blocks.NumbersExtend | packages/core/src/parser/IncremarkParser.ts:303 | appending the next fresh numbers keeps the numbering increasing, with the new bound |
| Blocks.NumberedConcat | packages/core/src/parser/IncremarkParser.ts:303 | the numberings of two block lists concatenate |
| Blocks.Substring | packages/core/src/parser/IncremarkParser.ts:263 | JavaScript `substring`: in range it is the slice, and never longer than the text |
| Blocks.SubstringSwap | packages/core/src/parser/IncremarkParser.ts:263 | `substring(a, b) == substring(b, a)` |
| Blocks.BlocksFrom | packages/core/src/parser/IncremarkParser.ts:251-278 | one block per parsed node |
| Blocks.BlocksClosed | packages/core/src/parser/IncremarkParser.ts:251-278 | the same blocks in closed form: block `i` from node `i`, the cursor after nodes before it, and number `counter+1+i` |
| Blocks.ClosedPrefixStep | packages/core/src/parser/IncremarkParser.ts:258-274 | the closed form for `k+1` nodes extends that for `k` by block `k` |
| Blocks.CursorShift | packages/core/src/parser/IncremarkParser.ts:274 | the running offset after dropping the first node starts at that node's end |
| Blocks.BlocksFromClosed | packages/core/src/parser/IncremarkParser.ts:251-278 | the recursive and the closed descriptions agree |
| Blocks.BlockFields | packages/core/src/parser/IncremarkParser.ts:261-271 | each block carries its node, the status, the id `block-(counter+1+i)` and offsets from the node's position moved by `shift`, or else from the running offset |
| Blocks.BlockText | packages/core/src/parser/IncremarkParser.ts:263 | each block's `rawText` is the substring of the parsed text between its offsets made relative |
| Blocks.BlockAtText | packages/core/src/parser/IncremarkParser.ts:261-271 | the same for a single block |
| Blocks.RawTextMisCut | packages/core/src/parser/IncremarkParser.ts:261-269 | as written (`shift = 0`): `"abc"` parsed at offset 5, one node spanning it, gives offsets 0 and 3 and an empty raw text |
| Blocks.ShiftedBlockInDocument | packages/core/src/parser/IncremarkParser.ts:261-269 | corrected (`shift` = the text's offset): a node spanning `[s, e)` of the parsed text becomes a block at `offset+s`..`offset+e` whose raw text is that piece of the text and the same piece of the document |
| Blocks.BlockContinues | packages/core/src/parser/IncremarkParser.ts:261-274 | a block starts at its node's start or, without a position, where the previous block ended |
| Blocks.BlocksFromNumbered | packages/core/src/parser/IncremarkParser.ts:266 | the blocks of one call take the next consecutive numbers and share its status |
| Parser.LineStart | packages/core/src/parser/IncremarkParser.ts:135-137 | a line's offset is the length of the text before it |
| Parser.PushLines | packages/core/src/parser/IncremarkParser.ts:125-129 | the loop that pushes lines and offsets keeps the offsets a prefix sum |
| Parser.LastLineWithin | packages/core/src/parser/IncremarkParser.ts:115-116 | the old last line's offset lies within the grown buffer |
| Parser.ScanFromRange | packages/core/src/parser/IncremarkParser.ts:148-187 | the scan from the pending line returns -1 or a line between `start - 1` and the last line |
| Parser.ScanFacts | packages/core/src/parser/IncremarkParser.ts:148-187 | a found boundary is before the last line, and its saved context is the transition run from the pending line through it |
| Parser.CommitStepOf | packages/core/src/parser/IncremarkParser.ts:296-309 | the commit step commits through the boundary exactly when it is at or after the pending line |
| Parser.CommitStepRange | packages/core/src/parser/IncremarkParser.ts:296-309 | the commit step resumes at or after the pending line and within the lines; when it does not move, it commits nothing and keeps the context |
| Parser.CommitFacts | packages/core/src/parser/IncremarkParser.ts:296-309 | after a commit, the saved context is the transition run from the first line through the boundary |
| Parser.RestNumbered | packages/core/src/parser/IncremarkParser.ts:311-319 | the blocks of the tail take the next numbers, and a whitespace-only tail yields none, since `trim()` is then empty |
| Parser.LinesBeforeAppend | packages/core/src/parser/IncremarkParser.ts:284 | the old lines are newline-free and their join is a prefix of the grown buffer |
| Parser.PrefixKept | packages/core/src/parser/IncremarkParser.ts:114-129 | the context at the pending line is unchanged by re-splitting, as the lines before it are kept |
| Parser.NumberingExtends | packages/core/src/parser/IncremarkParser.ts:303 | appending freshly numbered completed blocks keeps the numbering increasing |
| Parser.PendingNumbering | packages/core/src/parser/IncremarkParser.ts:318 | pending blocks numbered after the counter keep all numbers increasing |
| Parser.IncremarkParser.InitialValid | packages/core/src/parser/IncremarkParser.ts:57-65 | the initial state satisfies the parser invariant |
| Parser.IncremarkParser.constructor | packages/core/src/parser/IncremarkParser.ts:57-65 | containers resolved from the option, an empty buffer, no blocks, a fresh context, and the invariant |
| Parser.IncremarkParser.UpdateLines | packages/core/src/parser/IncremarkParser.ts:101-130 | the lines are the buffer split at newlines and the offsets a prefix sum over them; all lines but the old last are kept |
| Parser.IncremarkParser.GetLineOffset | packages/core/src/parser/IncremarkParser.ts:135-137 | a line's offset is the length of the text before it, and 0 outside the table |
| Parser.IncremarkParser.FindStableBoundary | packages/core/src/parser/IncremarkParser.ts:143-188 | the loop returns the scan's boundary and saved context |
| Parser.IncremarkParser.NodesToBlocks | packages/core/src/parser/IncremarkParser.ts:251-278 | the loop builds exactly the block list specified, with the engine's positions stored unmoved and `rawText` cut at them minus `startOffset`, as written; the counter advances by the node count |
| Parser.IncremarkParser.GetAst | packages/core/src/parser/IncremarkParser.ts:414-422 | the completed nodes followed by the last pending nodes |
| Parser.IncremarkParser.Append | packages/core/src/parser/IncremarkParser.ts:283-334 | the buffer grows by the chunk; lines before the old last are kept; blocks are committed through the boundary only at or after the pending line and appended to the completed list; pending blocks are the tail; the counter advances by the completed and the pending blocks; the AST is completed then pending nodes |
| Parser.IncremarkParser.AppendToBuffer | packages/core/src/parser/IncremarkParser.ts:284-285 | the buffer gets the chunk and the lines are re-split, keeping all but the old last line |
| Parser.IncremarkParser.CommitIfStable | packages/core/src/parser/IncremarkParser.ts:287-309 | commits as the commit step specifies; completed blocks only grow at the end |
| Parser.IncremarkParser.CommitStable | packages/core/src/parser/IncremarkParser.ts:296-309 | commits the lines from the pending line through the boundary and resumes after it with the saved context |
| Parser.IncremarkParser.CommitLines | packages/core/src/parser/IncremarkParser.ts:297-303 | the lines' blocks, with the engine's positions as written, are appended to the completed list with fresh numbers |
| Parser.IncremarkParser.ResumeAt | packages/core/src/parser/IncremarkParser.ts:307-308 | the pending line and context are set |
| Parser.IncremarkParser.PushCompleted | packages/core/src/parser/IncremarkParser.ts:303 | the blocks are appended to the completed list |
| Parser.IncremarkParser.ParseLines | packages/core/src/parser/IncremarkParser.ts:297-301 | the blocks of a line range take the next consecutive numbers; their offsets are the engine's positions within the range's text, as written |
| Parser.IncremarkParser.ParsePending | packages/core/src/parser/IncremarkParser.ts:311-323 | the tail's blocks become the pending cache, consuming numbers |
| Parser.IncremarkParser.CommitRest | packages/core/src/parser/IncremarkParser.ts:368-385 | the tail's blocks are appended as completed, and the counter advances by their number |
| Parser.IncremarkParser.ParseRest | packages/core/src/parser/IncremarkParser.ts:368-380 | the tail's blocks, empty for a whitespace-only tail |
| Parser.IncremarkParser.Finalize | packages/core/src/parser/IncremarkParser.ts:360-400 | the tail is committed, numbered from the counter on, the counter advances by their number, the pending line moves to the end, the pending cache is cleared and the AST is the completed nodes |
| Parser.IncremarkParser.ClearPending | packages/core/src/parser/IncremarkParser.ts:388-389 | the pending line is the end and the cache empty |
| Parser.IncremarkParser.Abort | packages/core/src/parser/IncremarkParser.ts:406-408 | the same outcome as `finalize`, counter included |
| Parser.IncremarkParser.Reset | packages/core/src/parser/IncremarkParser.ts:448-460 | the initial state again, the counter back at 0 |
| Parser.IncremarkParser.Render | packages/core/src/parser/IncremarkParser.ts:467-471 | reset, append the content, finalize: the buffer is the content and the lines its split; the completed blocks are those the first commit from line 0 in the initial context makes, numbered from 1, then those of the rest, numbered after the pending blocks that append parsed; the counter is past all of them; nothing is pending: the pending line is at the end, the pending cache is empty, the update lists no pending and no updated blocks, and its AST is the completed nodes |
| Parser.IncremarkParser.AppendAndFinalize | packages/core/src/parser/IncremarkParser.ts:469-470 | the same outcome as `render`, pending line at the end, empty pending cache, no updated blocks and the completed nodes as AST, from the initial state that its `reset` leaves |
| Parser.RenderRest | packages/core/src/parser/IncremarkParser.ts:467-471 | finalizing after the first commit leaves the rest numbered after the append's pending blocks, and the counter past them |
| Parser.IncremarkParser.IdsDistinct | packages/core/src/parser/IncremarkParser.ts:67-69 | the ids of completed and pending blocks are pairwise distinct |
| AstUtils.CountChars | packages/core/src/transformer/utils.ts:6-26 | the accumulated count equals the recursive character count |
| AstUtils.Traverse | packages/core/src/transformer/utils.ts:9-22 | the closure adds the node's character count to the running count |
| AstUtils.Slice | packages/core/src/transformer/utils.ts:35-77 | the truncation equals the specified one, and is null for a non-positive budget |
| AstUtils.ProcessNode | packages/core/src/transformer/utils.ts:40-74 | the loop and recursion compute the specified kept node and remaining budget |
| AstUtils.SkipAfterBudget | packages/core/src/transformer/utils.ts:55 | once the budget is spent, the remaining children are skipped |
| AstUtils.TextLength | packages/core/src/transformer/utils.ts:6-26 | the character count is the length of the node's leaf text |
| AstUtils.TextLengthAll | packages/core/src/transformer/utils.ts:17-21 | the same for a list of children |
| AstUtils.ProcessPrefix | packages/core/src/transformer/utils.ts:40-74 | with every leaf carrying text, the kept text is the prefix of length `min(k, count)` and the budget drops by that much |
| AstUtils.ProcessPrefixAll | packages/core/src/transformer/utils.ts:52-60 | the same for a list of children |
| AstUtils.SliceIsPrefix | packages/core/src/transformer/utils.ts:35-77 | the truncated tree's text is the prefix of the tree's text of length `min(k, count)` |
| AstUtils.SliceAllText | packages/core/src/transformer/utils.ts:35-77 | a budget of at least the count keeps all the text |
| AstUtils.ContainerNeverEmpty | packages/core/src/transformer/utils.ts:62-66 | a container is never kept with no children |
| AstUtils.KeptAtMost | packages/core/src/transformer/utils.ts:53-60 | no more children are kept than there were |
| AstUtils.BareLeafCostsOne | packages/core/src/transformer/utils.ts:70-73 | a leaf with neither value nor children counts 0 but is kept whole for one unit |
| AstUtils.BareLeafNotShownAtTotal | packages/core/src/transformer/utils.ts:70-73 | a paragraph of the text `ab` and an image counts 2, yet truncating it at 2 keeps the text and drops the image |
| Plugins.CreatePlugin | packages/core/src/transformer/plugins.ts:103-113 | the given name and matcher with the supplied hooks, unchanged |
| Plugins.CodeBlockContract | packages/core/src/transformer/plugins.ts:10-18 | claims exactly code nodes, counts 1, shows the node iff displayed >= total |
| Plugins.MermaidContract | packages/core/src/transformer/plugins.ts:26-35 | claims exactly mermaid code, counts 1, shows the node once displayed > 0 |
| Plugins.MathContract | packages/core/src/transformer/plugins.ts:53-61 | claims exactly `math` and `inlineMath`, counts 1, shows the node once displayed > 0 |
| Plugins.ZeroCountContract | packages/core/src/transformer/plugins.ts:41-71 | image and thematic-break plugins claim their type, count 0 and have no slice hook |
| Plugins.MermaidIsCode | packages/core/src/transformer/plugins.ts:92-98 | whatever mermaid claims, code-block claims too, so the order of the list decides |
| Transformer.Ids | packages/core/src/transformer/BlockTransformer.ts:293-299 | the ids of a block list, one per block, in order |
| Transformer.NewBlocks | packages/core/src/transformer/BlockTransformer.ts:90 | exactly the input blocks whose ids are not already known, none added |
| Transformer.NewBlocksConcat | packages/core/src/transformer/BlockTransformer.ts:90 | filtering a concatenation filters each part, so the new blocks keep their input order |
| Transformer.NewBlocksSingle | packages/core/src/transformer/BlockTransformer.ts:90 | one block is kept exactly when its id is not known |
| Transformer.FindById | packages/core/src/transformer/BlockTransformer.ts:99 | a found block has the id and is the first block in the list that has it; none is found exactly when no block has it |
| Transformer.PromoteKeepsQueue | packages/core/src/transformer/BlockTransformer.ts:325-328 | dequeuing keeps the waiting order and the completed list; a dequeued block starts at 0; there is no current block exactly when nothing waits |
| Transformer.AppendPending | packages/core/src/transformer/BlockTransformer.ts:93 | pushing blocks onto the pending queue appends them to the waiting order and their ids to the order of all ids |
| Transformer.CompletedLeadOrder | packages/core/src/transformer/BlockTransformer.ts:376-383 | completed blocks are the first blocks in the order they were pushed, and the waiting blocks the rest |
| Transformer.TickOutcome | packages/core/src/transformer/BlockTransformer.ts:362-384 | a tick keeps all blocks in order; below the total the current block stays and progress grows below the total; otherwise it moves to the end of the completed list and the next starts at 0 if any |
| Transformer.ProgressAfterIsCapped | packages/core/src/transformer/BlockTransformer.ts:372 | after `k` fixed steps progress is `min(k * step, total)` |
| Transformer.TicksToComplete | packages/core/src/transformer/BlockTransformer.ts:369-383 | with step s > 0 and total T > 0, a block completes within `k` ticks iff `k >= ceil(T / s)` |
| Transformer.EmptyBlockFirstTick | packages/core/src/transformer/BlockTransformer.ts:372-376 | a block with total 0 completes on its first tick |
| Transformer.ZeroStepStalls | packages/core/src/transformer/BlockTransformer.ts:372-376 | a step of 0 never completes a block with text |
| Transformer.FractionBounds | packages/core/src/transformer/BlockTransformer.ts:209 | display progress lies in [0, 1], is 1 at the total and below 1 before it |
| Transformer.FirstPluginWins | packages/core/src/transformer/BlockTransformer.ts:428-451 | a claiming plugin whose hook answers decides; a plugin that does not claim is skipped |
| Transformer.UnclaimedIsDefault | packages/core/src/transformer/BlockTransformer.ts:428-451 | when no plugin claims, counting and slicing fall back to the defaults |
| Transformer.NoPluginsIsDefault | packages/core/src/transformer/BlockTransformer.ts:436-437 | without plugins the defaults apply |
| Transformer.CodeDispatch | packages/core/src/transformer/plugins.ts:92-98 | under all plugins code counts 1; mermaid shows once anything is displayed, other code once fully displayed |
| Transformer.ImageDispatch | packages/core/src/transformer/plugins.ts:83-86 | under the default plugins an image counts 0 and is sliced by the default truncation |
| Transformer.RandomStepBounds | packages/core/src/transformer/BlockTransformer.ts:393 | `floor(random * k)` lies in `[0, k-1]` for `k >= 1`, so a random step lies in `[min, max]` |
| Transformer.BlockTransformer.constructor | packages/core/src/transformer/BlockTransformer.ts:59-80 | default step 1 and no plugins unless given; empty state; not running, paused or scheduled |
| Transformer.BlockTransformer.Push | packages/core/src/transformer/BlockTransformer.ts:86-112 | only blocks with unknown ids are queued, in input order, and the head comes up when the animation may start; the current block is then kept or replaced by the first input block with its id, and it is replaced whenever that block's node differs; after a replacement the animation runs unless paused or the progress already covers the new node; while scheduled or paused, or when nothing is queued and no replacement can restart, `scheduled` and `isRunning` are unchanged |
| Transformer.BlockTransformer.QueueNew | packages/core/src/transformer/BlockTransformer.ts:86-95 | exactly the blocks with unknown ids join the queue, in input order; the animation starts only when some were added and it was neither scheduled nor paused, otherwise `scheduled` and `isRunning` are unchanged |
| Transformer.BlockTransformer.Enqueue | packages/core/src/transformer/BlockTransformer.ts:92-95 | the new blocks are appended to the waiting queue, the head comes up unless paused or scheduled, and animation starts; while scheduled or paused `scheduled` and `isRunning` are unchanged |
| Transformer.BlockTransformer.RefreshCurrent | packages/core/src/transformer/BlockTransformer.ts:97-111 | only the current block may be replaced, by the first input block with its id; it is replaced whenever that block's node differs, and then the animation restarts unless scheduled, paused or already past the new total; without such a block nothing changes; unless a restart is due, `scheduled` and `isRunning` are unchanged |
| Transformer.BlockTransformer.ReplaceCurrent | packages/core/src/transformer/BlockTransformer.ts:102 | the current block is replaced and nothing else changes |
| Transformer.BlockTransformer.Update | packages/core/src/transformer/BlockTransformer.ts:117-129 | only a block with the current id replaces it, restarting when it grew past finished progress; otherwise nothing changes |
| Transformer.BlockTransformer.Skip | packages/core/src/transformer/BlockTransformer.ts:134-151 | every block becomes completed, in order; no current block, progress 0, nothing pending, all flags cleared |
| Transformer.BlockTransformer.Reset | packages/core/src/transformer/BlockTransformer.ts:156-165 | the empty state with all flags cleared |
| Transformer.BlockTransformer.Pause | packages/core/src/transformer/BlockTransformer.ts:170-173 | paused and nothing scheduled |
| Transformer.BlockTransformer.Resume | packages/core/src/transformer/BlockTransformer.ts:178-183 | acts only when paused: unpauses and restarts with the next block |
| Transformer.BlockTransformer.GetDisplayBlocks | packages/core/src/transformer/BlockTransformer.ts:188-215 | every completed block shown whole, then the current one truncated at its progress with its fraction; waiting blocks never shown |
| Transformer.BlockTransformer.IsProcessing | packages/core/src/transformer/BlockTransformer.ts:220-222 | true exactly when a block is current or pending |
| Transformer.BlockTransformer.GetAllBlockIds | packages/core/src/transformer/BlockTransformer.ts:293-299 | the ids of all blocks in the order they were pushed |
| Transformer.BlockTransformer.StartIfNeeded | packages/core/src/transformer/BlockTransformer.ts:322-335 | does nothing while paused or scheduled; otherwise dequeues if needed and schedules when there is a current block |
| Transformer.BlockTransformer.AnimationFrame | packages/core/src/transformer/BlockTransformer.ts:341-360 | when the interval elapsed the state is one tick's outcome for an allowed step (only a dequeue without a current block), otherwise nothing changes; afterwards a frame is scheduled exactly when running and not paused; when a block is current afterwards, `isRunning` is unchanged |
| Transformer.BlockTransformer.Tick | packages/core/src/transformer/BlockTransformer.ts:362-384 | the state after one tick of an allowed step; the animation stops when no block remains |
| Transformer.BlockTransformer.GetStep | packages/core/src/transformer/BlockTransformer.ts:386-394 | the fixed count, or an integer within the configured range |
| Transformer.BlockTransformer.ProcessNext | packages/core/src/transformer/BlockTransformer.ts:396-407 | dequeues the next block at progress 0, or stops when none waits |
| Transformer.BlockTransformer.CancelRaf | packages/core/src/transformer/BlockTransformer.ts:409-414 | nothing is scheduled |
| Transformer.BlockTransformer.Stop | packages/core/src/transformer/BlockTransformer.ts:416-420 | not scheduled, running or paused |
| Transformer.BlockTransformer.CountChars | packages/core/src/transformer/BlockTransformer.ts:428-438 | the loop computes the first-match plugin count, else the default count |
| Transformer.BlockTransformer.SliceNode | packages/core/src/transformer/BlockTransformer.ts:440-451 | the loop computes the first-match plugin slice, else the default truncation |
| Cursor.LastAccepting | packages/svelte/src/utils/cursor.ts:19-24 | the last child that accepts the cursor, with no later child accepting, or -1 |
| Cursor.LastAcceptingIs | packages/svelte/src/utils/cursor.ts:20-24 | an index is that child exactly when it accepts and no later child does |
| Cursor.AddToLast | packages/svelte/src/utils/cursor.ts:18-37 | answers whether the node accepts and yields the node with the cursor added at its last text place |
| Cursor.AddCursorToNode | packages/svelte/src/utils/cursor.ts:15-41 | the copy with the cursor added; the input value is untouched |
| Cursor.CursorInsertedOnce | packages/svelte/src/utils/cursor.ts:18-37 | a node that accepts gains exactly the cursor's length of text; one that refuses comes back unchanged |
| Cursor.CursorInsertedOnceAll | packages/svelte/src/utils/cursor.ts:19-27 | children gain exactly the cursor's length of text |
| Cursor.CursorPlacement | packages/svelte/src/utils/cursor.ts:19-26 | children are searched from the back: later ones refuse and stay, earlier ones stay; with none accepting a cursor text node is appended |
| Cursor.BareNodeUnchanged | packages/svelte/src/utils/cursor.ts:36-40 | a node with neither children nor a value comes back equal |
| Cursor.ValueGetsCursor | packages/svelte/src/utils/cursor.ts:28-35 | a node with a value and no children gets the cursor at the end of its value |

## Left out

- The grammar engine (`fromMarkdown`, `gfm()`, `gfmFromMarkdown()`, user extensions) is the opaque function field `parse`. Nothing about Markdown grammar is specified, and the parser options that select extensions fold into it.
- Change notification (`onChange`, `emitChange`, `setOnChange`) is left out. So are the transformer's `emit`, `notifyComplete` and the plugins' `onComplete` hooks. They only call out to user code.
- The read-only getters `getCompletedBlocks` and `getBuffer` are left out; the fields are read directly. Likewise the transformer's `isPausedState`, `getState`, `getOptions` and `getEffect`, and its `setOptions` and `destroy`.
- Browser scheduling is not modelled. `requestAnimationFrame`, `cancelAnimationFrame` and the `rafId` become the boolean `scheduled`. The `lastTickTime` and `tickInterval` timing is the `intervalElapsed` parameter of `AnimationFrame`. The page-visibility handler and the `pauseOnHidden` option are left out.
- `Math.random` is a nondeterministic choice of a real in [0, 1).
- Transformer.BlockTransformer.Tick: the step it takes is reported as a ghost out-parameter, because it comes from the nondeterministic `getStep`.
- Transformer.BlockTransformer.GetStep: steps are integers, so a fractional `charsPerTick` (a number or a pair of numbers) is not modelled. Progress and totals are integers too, so the fractional progress such a step produces is not captured; the `TickStep` record holds integers only.
- Transformer.BlockTransformer.RefreshCurrent: object identity (`!==` on nodes) is a nondeterministic choice. The only constraint is that nodes of different value are different objects.
- Node trees are values. The in-place mutation of the cloned tree in `addToLast`, the shallow copies in `sliceAst` and `cloneNode`'s JSON deep copy are therefore not captured as updates or aliasing, only as the resulting values.
- Strings are sequences of characters, and one character stands for one UTF-16 code unit. A character outside the Basic Multilingual Plane counts 2 in JavaScript's `length`; that difference is not modelled.
- Detector.DetectContainer: the container marker is one non-whitespace character. A longer marker string, which the regular expression would repeat only in its last character, or a whitespace marker is not modelled.
- The regular-expression caches are left out; they are memoization only. `isHtmlBlock` and `isTableDelimiter` are left out because nothing in the modelled code calls them.
- `isEmptyLine`, `isHeading`, `isBlockquoteStart`, `detectFenceEnd`, `detectContainerEnd` and `isBlockBoundary` are modelled as predicates. What they mean is stated by the lemmas above rather than by contracts of their own.
- The list and footnote fields of the block context, and the definition fields of an update, are left out. The modelled code never reads or writes them.
- Framework bindings (React, Vue and Svelte stores), rendering, theming, benchmarks and example applications are not part of this model.

## Findings

| source | as written | input that shows it | evidently intended | confidence | as-written member | corrected member |
|---|---|---|---|---|---|---|
| packages/core/src/parser/IncremarkParser.ts:261-269 | `startOffset`/`endOffset` are the engine's positions, counted from the start of the parsed text, and `rawText` is cut at those positions minus the text's document offset | `"abc"` parsed at document offset 5, one node spanning 0..3: offsets 0 and 3, `rawText` = `substring(-5, -2)` = `""` | positions moved by the text's document offset, so the offsets are document offsets and `rawText` is the node's own text | not executed | Blocks.RawTextMisCut | Blocks.ShiftedBlockInDocument |
