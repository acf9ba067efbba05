/**
 * The incremental parser: it accumulates the streamed text, keeps it split
 * into lines with their start offsets, finds the last line up to which the
 * text is stable, parses the newly stable lines once into completed blocks
 * and re-parses the unstable tail into pending blocks on every chunk.
 *
 * The Markdown parser proper (`fromMarkdown` with its extensions) is a
 * parameter of the model: `parse` maps a text to the children of its root.
 */
module Parser {

  import opened Text
  import opened Types
  import opened Detector
  import opened Lines
  import opened Boundary
  import opened Blocks

  /** `lineOffsets[i] ?? 0` is the start of line `i`: the length of the lines before it with their newlines. */
  lemma LineStart(ls: seq<string>, offs: seq<int>, i: int)
    ensures IsLineOffsets(ls, offs) && 0 <= i <= |ls| ==> offs[i] == |Terminated(ls[..i])|
  {
    if IsLineOffsets(ls, offs) && 0 <= i <= |ls| {
      OffsetIsPrefixLength(ls, offs, i);
    }
  }

  /** Push each of `more` after `ls0`, with the offset just past it (its length plus the newline). */
  method PushLines(ls0: seq<string>, offs0: seq<int>, more: seq<string>) returns (ls: seq<string>, offs: seq<int>)
    requires IsLineOffsets(ls0, offs0)
    ensures ls == ls0 + more && IsLineOffsets(ls, offs)
  {
    ls, offs := ls0, offs0;
    var i := 0;
    while i < |more|
      invariant 0 <= i <= |more|
      invariant ls == ls0 + more[..i]
      invariant IsLineOffsets(ls, offs)
    {
      var prevOffset := offs[|offs| - 1];
      LineOffsetsPush(ls, offs, more[i]);
      ls := ls + [more[i]];
      offs := offs + [prevOffset + |more[i]| + 1];
      assert more[..i + 1] == more[..i] + [more[i]];
      i := i + 1;
    }
    assert more[..i] == more;
  }

  /** The last known line starts inside any text that extends the known lines. */
  lemma LastLineWithin(ls: seq<string>, offs: seq<int>, text: string)
    requires ls != [] && IsLineOffsets(ls, offs) && Join(ls) <= text
    ensures 0 <= offs[|ls| - 1] <= |text|
  {
    OffsetIsPrefixLength(ls, offs, |ls| - 1);
    JoinAt(ls, |ls| - 1);
  }

  /**
   * The scan `findStableBoundary` performs over `lines` from `start`,
   * resuming from `context`, with `next` the detector's step.
   */
  function ScanFrom(lines: seq<string>, start: nat, context: BlockContext, verdict: (seq<string>, nat) -> int,
                    next: (string, BlockContext) -> BlockContext): Scan
    requires start <= |lines|
  {
    ScanUpTo(lines, start, |lines|, context, Stabilities(lines, verdict), next)
  }

  /** The stable line found is -1 or lies between the line before the start and the line before the last. */
  lemma ScanFromRange(lines: seq<string>, start: nat, context: BlockContext, verdict: (seq<string>, nat) -> int,
                      next: (string, BlockContext) -> BlockContext)
    requires start <= |lines| && VerdictShape(verdict)
    ensures var s := ScanFrom(lines, start, context, verdict, next);
      s.line == -1 || (start - 1 <= s.line && s.line <= |lines| - 2)
  {
    StabilitiesShape(lines, verdict);
    ScanRange(lines, start, |lines|, context, Stabilities(lines, verdict), next);
  }

  /** The blocks of a tail of the text: none when it is all whitespace, otherwise those of its parse. */
  function TailBlocks(parse: string -> seq<Node>, text: string, offset: int, status: BlockStatus, counter: nat)
    : seq<ParsedBlock>
  {
    if Trim(text) != "" then BlocksFrom(parse(text), offset, 0, offset, text, status, counter) else []
  }

  /** The blocks of lines `a` up to `b`, parsed as one text and numbered from `counter` on. */
  function LineBlocks(parse: string -> seq<Node>, lines: seq<string>, offs: seq<int>, a: nat, b: nat,
                      status: BlockStatus, counter: nat): seq<ParsedBlock>
    requires a <= b <= |lines| && |offs| == |lines| + 1
  {
    var text := Join(lines[a..b]);
    BlocksFrom(parse(text), offs[a], 0, offs[a], text, status, counter)
  }

  /** What one `append` commits: where the pending line moves, the context there, and the new completed blocks. */
  datatype Commit = Commit(next: nat, context: BlockContext, blocks: seq<ParsedBlock>)

  /**
   * The commit step of `append`: when the stable boundary the scan finds
   * lies at or after the pending line `p`, the lines from `p` through it are
   * parsed once into completed blocks numbered from `counter` on, and the
   * pending line moves past them with the context the scan saved there;
   * otherwise nothing is committed.
   */
  function CommitStep(parse: string -> seq<Node>, lines: seq<string>, offs: seq<int>, p: nat, context: BlockContext,
                      verdict: (seq<string>, nat) -> int, next: (string, BlockContext) -> BlockContext, counter: nat): Commit
    requires p <= |lines| && |offs| == |lines| + 1 && VerdictShape(verdict)
  {
    var scan := ScanFrom(lines, p, context, verdict, next);
    ScanFromRange(lines, p, context, verdict, next);
    if scan.line >= p then
      Commit(scan.line + 1, scan.snapshot, LineBlocks(parse, lines, offs, p, scan.line + 1, Completed, counter))
    else
      Commit(p, context, [])
  }

  /** The commit step in terms of the line and context the scan found. */
  lemma CommitStepOf(parse: string -> seq<Node>, lines: seq<string>, offs: seq<int>, p: nat, context: BlockContext,
                     verdict: (seq<string>, nat) -> int, next: (string, BlockContext) -> BlockContext, counter: nat,
                     b: int, snap: BlockContext)
    requires p <= |lines| && |offs| == |lines| + 1 && VerdictShape(verdict)
    requires b == ScanFrom(lines, p, context, verdict, next).line && snap == ScanFrom(lines, p, context, verdict, next).snapshot
    ensures b >= p ==> b + 1 <= |lines|
    ensures CommitStep(parse, lines, offs, p, context, verdict, next, counter)
      == if b >= p then Commit(b + 1, snap, LineBlocks(parse, lines, offs, p, b + 1, Completed, counter))
         else Commit(p, context, [])
  {
    ScanFromRange(lines, p, context, verdict, next);
    if b >= p {
      var blocks := LineBlocks(parse, lines, offs, p, b + 1, Completed, counter);
      assert CommitStep(parse, lines, offs, p, context, verdict, next, counter) == Commit(b + 1, snap, blocks);
    }
  }

  /** The pending line never moves back nor past the end, and it stays put exactly when nothing is committed. */
  lemma CommitStepRange(parse: string -> seq<Node>, lines: seq<string>, offs: seq<int>, p: nat, context: BlockContext,
                        verdict: (seq<string>, nat) -> int, next: (string, BlockContext) -> BlockContext, counter: nat)
    requires p <= |lines| && |offs| == |lines| + 1 && VerdictShape(verdict)
    ensures var r := CommitStep(parse, lines, offs, p, context, verdict, next, counter);
      && p <= r.next <= |lines|
      && (r.next == p ==> r.blocks == [] && r.context == context)
  {
    var scan := ScanFrom(lines, p, context, verdict, next);
    CommitStepOf(parse, lines, offs, p, context, verdict, next, counter, scan.line, scan.snapshot);
  }

  /**
   * The blocks of the lines from `p` on, numbered from `counter` on: none
   * when there are no such lines or their text is all whitespace.
   */
  function RestBlocks(parse: string -> seq<Node>, lines: seq<string>, offs: seq<int>, p: nat,
                      status: BlockStatus, counter: nat): seq<ParsedBlock>
    requires p <= |lines| && |offs| == |lines| + 1
  {
    if p < |lines| then TailBlocks(parse, Join(lines[p..]), offs[p], status, counter) else []
  }

  /**
   * The blocks of the rest are numbered consecutively from the counter on,
   * and there are none when the rest is only whitespace.
   */
  lemma RestNumbered(parse: string -> seq<Node>, lines: seq<string>, offs: seq<int>, p: nat,
                     status: BlockStatus, counter: nat)
    requires p <= |lines| && |offs| == |lines| + 1
    ensures var rest := RestBlocks(parse, lines, offs, p, status, counter);
      Numbered(rest, Range(counter, |rest|), status)
    ensures AllWs(Join(lines[p..])) ==> RestBlocks(parse, lines, offs, p, status, counter) == []
  {
    if p < |lines| && Trim(Join(lines[p..])) != "" {
      var text := Join(lines[p..]);
      BlocksFromNumbered(parse(text), offs[p], 0, offs[p], text, status, counter);
    }
  }

  /**
   * What the parser relies on about its scan: the stable line is -1 or lies
   * between the line before the start and the line before the last, and the
   * context saved with it is the context after that line.
   */
  lemma ScanFacts(lines: seq<string>, start: nat, context: BlockContext, verdict: (seq<string>, nat) -> int,
                  next: (string, BlockContext) -> BlockContext)
    requires start <= |lines| && VerdictShape(verdict) && QuietOutside(next)
    ensures var s := ScanFrom(lines, start, context, verdict, next);
      && (s.line == -1 || (start - 1 <= s.line && s.line <= |lines| - 2))
      && (s.line >= 0 ==>
            && start <= s.line + 1
            && s.snapshot == RunLines(context, lines[start..s.line + 1], next))
  {
    var stab := Stabilities(lines, verdict);
    StabilitiesShape(lines, verdict);
    ScanRange(lines, start, |lines|, context, stab, next);
    ScanSnapshot(lines, start, |lines|, context, stab, next);
  }

  /**
   * A boundary found by the scan lies before the last line, and resuming the
   * detector at the pending line `p` and running it through the boundary is
   * running it from the start through the boundary.
   */
  lemma CommitFacts(lines: seq<string>, p: nat, context: BlockContext, verdict: (seq<string>, nat) -> int,
                    next: (string, BlockContext) -> BlockContext, b: int, snap: BlockContext)
    requires p <= |lines| && VerdictShape(verdict) && QuietOutside(next)
    requires b == ScanFrom(lines, p, context, verdict, next).line && snap == ScanFrom(lines, p, context, verdict, next).snapshot
    requires p <= b
    ensures b + 1 < |lines|
    ensures context == RunLines(CreateInitialContext(), lines[..p], next) ==>
      snap == RunLines(CreateInitialContext(), lines[..b + 1], next)
  {
    ScanFacts(lines, p, context, verdict, next);
    assert lines[..b + 1] == lines[..p] + lines[p..b + 1];
    RunLinesConcat(CreateInitialContext(), lines[..p], lines[p..b + 1], next);
  }

  /** The lines of a buffer are still a prefix of it once text is appended. */
  lemma LinesBeforeAppend(buffer: string, chunk: string, lines: seq<string>)
    requires lines == Split(buffer)
    ensures NoNewlines(lines) && Join(lines) <= buffer + chunk
  {
    JoinSplit(buffer);
    SplitNoNewlines(buffer);
  }

  /**
   * Re-splitting after an append keeps every line before the old last one,
   * so the context after the lines before `p` is unchanged.
   */
  lemma PrefixKept(lines0: seq<string>, lines: seq<string>, p: nat, context: BlockContext,
                   next: (string, BlockContext) -> BlockContext)
    requires |lines0| <= |lines| && p < |lines0|
    requires lines[..|lines0| - 1] == lines0[..|lines0| - 1]
    requires context == RunLines(CreateInitialContext(), lines0[..p], next)
    ensures context == RunLines(CreateInitialContext(), lines[..p], next)
  {
    assert lines[..p] == lines[..|lines0| - 1][..p];
    assert lines0[..p] == lines0[..|lines0| - 1][..p];
  }

  /**
   * The blocks of the rest depend only on where it starts and on the
   * counter; stated for two names of each, so that `Append` and `Render`
   * get the instance they need from a lemma call.
   */
  lemma SameRest(parse: string -> seq<Node>, lines: seq<string>, offs: seq<int>, p: nat, q: nat, status: BlockStatus,
                 a: nat, b: nat)
    requires p <= |lines| && |offs| == |lines| + 1 && p == q && a == b
    ensures RestBlocks(parse, lines, offs, p, status, a) == RestBlocks(parse, lines, offs, q, status, b)
  {
  }

  /**
   * What finishing a document leaves after its first commit `c`: the blocks
   * of the rest, numbered after those committed and those the same append
   * parsed as pending, and the counter past all of them.
   */
  predicate RenderedAfter(parse: string -> seq<Node>, lines: seq<string>, offs: seq<int>, c: Commit,
                          all: seq<ParsedBlock>, completed: seq<ParsedBlock>, counter: nat)
    requires |offs| == |lines| + 1
  {
    && c.next <= |lines|
    && all == c.blocks + completed
    && var pending := RestBlocks(parse, lines, offs, c.next, Pending, |c.blocks|);
    && completed == RestBlocks(parse, lines, offs, c.next, Completed, |c.blocks| + |pending|)
    && counter == |c.blocks| + |pending| + |completed|
  }

  /** Finalizing after the append that made the first commit `c` leaves what `RenderedAfter` describes. */
  lemma RenderRest(parse: string -> seq<Node>, lines: seq<string>, offs: seq<int>,
                   c: Commit, p: nat, k: nat, all: seq<ParsedBlock>, completed: seq<ParsedBlock>, counter: nat)
    requires |offs| == |lines| + 1
    requires p == c.next <= |lines|
    requires k == |c.blocks| + |RestBlocks(parse, lines, offs, c.next, Pending, |c.blocks|)|
    requires completed == RestBlocks(parse, lines, offs, p, Completed, k)
    requires counter == k + |completed| && all == c.blocks + completed
    ensures RenderedAfter(parse, lines, offs, c, all, completed, counter)
  {
    var pending := RestBlocks(parse, lines, offs, c.next, Pending, |c.blocks|);
    SameRest(parse, lines, offs, p, c.next, Completed, k, |c.blocks| + |pending|);
  }

  /** Blocks numbered from the counter on can follow blocks numbered below it. */
  lemma NumberingExtends(blocks: seq<ParsedBlock>, nums: seq<nat>, more: seq<ParsedBlock>, counter: nat, status: BlockStatus)
    requires Numbered(blocks, nums, status) && Increasing(nums) && Within(nums, counter)
    requires Numbered(more, Range(counter, |more|), status)
    ensures Numbered(blocks + more, nums + Range(counter, |more|), status)
    ensures Increasing(nums + Range(counter, |more|)) && Within(nums + Range(counter, |more|), counter + |more|)
  {
    NumbersExtend(nums, counter, |more|);
    NumberedConcat(blocks, nums, more, Range(counter, |more|), status);
  }

  /** New pending blocks numbered from the counter on follow the completed ones. */
  lemma PendingNumbering(completedNums: seq<nat>, pending: seq<ParsedBlock>, counter: nat)
    requires Increasing(completedNums) && Within(completedNums, counter)
    requires Numbered(pending, Range(counter, |pending|), Pending)
    ensures Increasing(completedNums + Range(counter, |pending|))
    ensures Within(completedNums + Range(counter, |pending|), counter + |pending|)
  {
    NumbersExtend(completedNums, counter, |pending|);
  }

  // ---------------------------------------------------------------------
  // The parser
  // ---------------------------------------------------------------------

  class IncremarkParser {
    var buffer: string
    var lines: seq<string>
    /** `lineOffsets[i]` is the offset in `buffer` at which line `i` starts. */
    var lineOffsets: seq<int>
    var completedBlocks: seq<ParsedBlock>
    var pendingStartLine: nat
    var blockIdCounter: nat
    /** The detector context at the start of line `pendingStartLine`. */
    var context: BlockContext
    const containerConfig: Option<ContainerConfig>
    /** `updateContext` with the container configuration resolved at construction. */
    const step: (string, BlockContext) -> BlockContext
    /** `checkStability` with the container configuration resolved at construction. */
    const verdict: (seq<string>, nat) -> int
    const parse: string -> seq<Node>
    /** The pending blocks of the last `append`, reused by `getAst`. */
    var lastPendingBlocks: seq<ParsedBlock>

    /** The counter values behind the ids of the completed and pending blocks. */
    ghost var completedNums: seq<nat>
    ghost var pendingNums: seq<nat>
    /** `finalize` ran since the last reset: the tail was committed without a scan. */
    ghost var finalized: bool

    /** The lines are the buffer split at newlines, and the offsets locate them. */
    ghost predicate LinesValid()
      reads this`buffer, this`lines, this`lineOffsets
    {
      && IsLineOffsets(lines, lineOffsets)
      && (if lines == [] then buffer == "" else lines == Split(buffer))
    }

    /**
     * Until `finalize`, the pending line is the first line or lies before the
     * last one, and the context is the detector's state after the lines before it.
     */
    ghost predicate ContextValid()
      reads this`lines, this`pendingStartLine, this`context, this`finalized
    {
      && pendingStartLine <= |lines|
      && (!finalized ==>
            && (pendingStartLine == 0 || pendingStartLine < |lines|)
            && context == RunLines(CreateInitialContext(), lines[..pendingStartLine], step))
    }

    /**
     * What the parser relies on about the detector: its step leaves the
     * context alone on every line where stability is consulted, and
     * `checkStability` answers -1, the line or the one before, never the last.
     */
    ghost predicate StepValid() {
      QuietOutside(step) && VerdictShape(verdict)
    }

    /** The completed blocks carry increasing ids the counter has handed out. */
    ghost predicate CompletedValid()
      reads this`completedBlocks, this`completedNums, this`blockIdCounter
    {
      && Numbered(completedBlocks, completedNums, Completed)
      && Increasing(completedNums)
      && Within(completedNums, blockIdCounter)
    }

    /** The pending blocks carry ids after those of the completed blocks. */
    ghost predicate PendingValid()
      reads this`lastPendingBlocks, this`completedNums, this`pendingNums, this`blockIdCounter
    {
      && Numbered(lastPendingBlocks, pendingNums, Pending)
      && Increasing(completedNums + pendingNums)
      && Within(completedNums + pendingNums, blockIdCounter)
    }

    ghost predicate Valid()
      reads this
    {
      StepValid() && LinesValid() && ContextValid() && CompletedValid() && PendingValid()
    }

    /** The state of a fresh (or reset) parser. */
    ghost predicate Initial()
      reads this
    {
      && buffer == "" && lines == [] && lineOffsets == [0]
      && completedBlocks == [] && pendingStartLine == 0 && blockIdCounter == 0
      && context == CreateInitialContext() && lastPendingBlocks == []
      && completedNums == [] && pendingNums == [] && !finalized
    }

    /** A fresh parser satisfies the invariant. */
    lemma InitialValid()
      requires Initial() && StepValid()
      ensures Valid()
    {
    }

    /** `containers` is resolved once: absent or `false` turns containers off, `true` means the defaults. */
    constructor(containers: ContainerOption, parse: string -> seq<Node>)
      ensures containerConfig == ResolveContainers(containers) && this.parse == parse
      ensures step == Transition(containerConfig) && verdict == Verdicts(containerConfig)
      ensures Initial() && Valid()
    {
      buffer := "";
      lines := [];
      lineOffsets := [0];
      completedBlocks := [];
      pendingStartLine := 0;
      blockIdCounter := 0;
      context := CreateInitialContext();
      containerConfig := ResolveContainers(containers);
      step := Transition(ResolveContainers(containers));
      verdict := Verdicts(ResolveContainers(containers));
      this.parse := parse;
      lastPendingBlocks := [];
      completedNums := [];
      pendingNums := [];
      finalized := false;
      TransitionIsQuiet(ResolveContainers(containers));
      VerdictsShaped(ResolveContainers(containers));
    }

    /**
     * Re-split the buffer after text was appended to it. The first time the
     * whole buffer is split; afterwards only the text from the start of the
     * last line on, the earlier lines being complete.
     */
    method UpdateLines()
      requires IsLineOffsets(lines, lineOffsets)
      requires lines != [] ==> NoNewlines(lines) && Join(lines) <= buffer
      modifies this`lines, this`lineOffsets
      ensures lines == Split(buffer) && IsLineOffsets(lines, lineOffsets)
      ensures old(lines) != [] ==> |old(lines)| <= |lines| && lines[..|old(lines)| - 1] == old(lines)[..|old(lines)| - 1]
    {
      var prevLineCount := |lines|;
      if prevLineCount == 0 {
        lines, lineOffsets := PushLines([], [0], Split(buffer));
        return;
      }

      var lastLineStart := lineOffsets[prevLineCount - 1];
      LastLineWithin(lines, lineOffsets, buffer);
      var textFromLastLine := buffer[lastLineStart..];
      var newLines := Split(textFromLastLine);
      var kept := lines[..prevLineCount - 1];
      var ls, offsets := PushLines(kept, lineOffsets[..prevLineCount], newLines);
      OffsetIsPrefixLength(lines, lineOffsets, prevLineCount - 1);
      SplitExtends(lines, buffer);
      lines, lineOffsets := ls, offsets;
    }

    /** `lineOffsets[i] ?? 0` */
    function GetLineOffset(i: int): (r: int)
      reads this`lines, this`lineOffsets
      ensures IsLineOffsets(lines, lineOffsets) && 0 <= i <= |lines| ==> r == |Terminated(lines[..i])|
      ensures IsLineOffsets(lines, lineOffsets) && (i < 0 || i > |lines|) ==> r == 0
    {
      LineStart(lines, lineOffsets, i);
      if 0 <= i < |lineOffsets| then lineOffsets[i] else 0
    }

    /**
     * Run the detector from the pending line on and report the last line up
     * to which the text is stable (-1 for none) with the context after it.
     */
    method FindStableBoundary() returns (line: int, contextAtLine: BlockContext)
      requires pendingStartLine <= |lines|
      ensures var s := ScanFrom(lines, pendingStartLine, context, verdict, step);
        line == s.line && contextAtLine == s.snapshot
    {
      ghost var stab := Stabilities(lines, verdict);
      var stableLine := -1;
      var stableContext := context;
      var tempContext := context;
      var i := pendingStartLine;
      while i < |lines|
        invariant pendingStartLine <= i <= |lines|
        invariant Scan(tempContext, stableLine, stableContext) == ScanUpTo(lines, pendingStartLine, i, context, stab, step)
      {
        var line := lines[i];
        var wasInFencedCode := tempContext.inFencedCode;
        var wasInContainer := tempContext.inContainer;
        var wasContainerDepth := tempContext.containerDepth;
        tempContext := step(line, tempContext);

        if wasInFencedCode && !tempContext.inFencedCode {
          if i < |lines| - 1 {
            stableLine := i;
            stableContext := tempContext;
          }
        } else if tempContext.inFencedCode {
        } else if wasInContainer && wasContainerDepth == 1 && !tempContext.inContainer {
          if i < |lines| - 1 {
            stableLine := i;
            stableContext := tempContext;
          }
        } else if tempContext.inContainer {
        } else {
          var stablePoint := verdict(lines, i);
          assert stablePoint == stab[i];
          if stablePoint >= 0 {
            stableLine := stablePoint;
            stableContext := tempContext;
          }
        }
        i := i + 1;
      }
      line, contextAtLine := stableLine, stableContext;
    }

    /**
     * One block per node, numbered from the id counter on, with its offsets
     * taken from the node's position or else continued from the previous
     * block, and its raw text cut out of `rawText` (which starts at `startOffset`).
     * The grammar engine counts positions from the start of `rawText`; they are
     * stored unmoved and the cut subtracts `startOffset` from them, as the code
     * is written (shift 0; see `Blocks.RawTextMisCut`).
     */
    method NodesToBlocks(nodes: seq<Node>, startOffset: int, rawText: string, status: BlockStatus)
      returns (blocks: seq<ParsedBlock>)
      modifies this`blockIdCounter
      ensures blocks == BlocksFrom(nodes, startOffset, 0, startOffset, rawText, status, old(blockIdCounter))
      ensures blockIdCounter == old(blockIdCounter) + |nodes|
    {
      var counter := blockIdCounter;
      ghost var spec := BlocksClosed(nodes, startOffset, 0, startOffset, rawText, status, counter);
      blocks := [];
      var currentOffset := startOffset;
      var k := 0;
      while k < |nodes|
        invariant 0 <= k <= |nodes|
        invariant counter == old(blockIdCounter) + k
        invariant currentOffset == Cursor(nodes, startOffset, 0, k)
        invariant blocks == spec[..k]
      {
        counter := counter + 1;
        var block := BlockAt(nodes[k], currentOffset, 0, startOffset, rawText, status, counter);
        ClosedPrefixStep(nodes, startOffset, 0, startOffset, rawText, status, old(blockIdCounter), k);
        blocks := blocks + [block];
        currentOffset := block.endOffset;
        k := k + 1;
      }
      assert spec[..k] == spec;
      BlocksFromClosed(nodes, startOffset, 0, startOffset, rawText, status, old(blockIdCounter));
      blockIdCounter := counter;
    }

    /** The AST of everything so far: completed blocks, then the last pending ones. */
    function GetAst(): (r: seq<Node>)
      reads this`completedBlocks, this`lastPendingBlocks
      ensures |r| == |completedBlocks| + |lastPendingBlocks|
      ensures forall i :: 0 <= i < |completedBlocks| ==> r[i] == completedBlocks[i].node
      ensures forall i :: 0 <= i < |lastPendingBlocks| ==> r[|completedBlocks| + i] == lastPendingBlocks[i].node
    {
      NodesOf(completedBlocks) + NodesOf(lastPendingBlocks)
    }

    /**
     * Take a chunk: extend the buffer and its lines, commit the lines up to
     * the stable boundary (if it lies at or after the pending line) as
     * completed blocks, and re-parse the rest as pending blocks.
     */
    method Append(chunk: string) returns (update: IncrementalUpdate)
      requires Valid()
      modifies this`buffer, this`lines, this`lineOffsets, this`completedBlocks, this`completedNums,
               this`blockIdCounter, this`context, this`pendingStartLine, this`lastPendingBlocks, this`pendingNums
      ensures Valid()
      ensures buffer == old(buffer) + chunk && lines == Split(buffer)
      ensures |old(lines)| <= |lines| && old(pendingStartLine) <= |lines|
      ensures old(lines) != [] ==> lines[..|old(lines)| - 1] == old(lines)[..|old(lines)| - 1]
      ensures var c := CommitStep(parse, lines, lineOffsets, old(pendingStartLine), old(context), verdict, step,
                                  old(blockIdCounter));
        pendingStartLine == c.next && context == c.context && update.completed == c.blocks
      ensures completedBlocks == old(completedBlocks) + update.completed
      ensures update.pending == RestBlocks(parse, lines, lineOffsets, pendingStartLine, Pending,
                                           old(blockIdCounter) + |update.completed|)
      ensures lastPendingBlocks == update.pending && update.updated == []
      ensures update.ast == NodesOf(completedBlocks) + NodesOf(update.pending) == GetAst()
      ensures blockIdCounter == old(blockIdCounter) + |update.completed| + |update.pending|
    {
      AppendToBuffer(chunk);
      var completed := CommitIfStable();
      ghost var c1 := blockIdCounter;
      var pending := ParsePending();
      update := IncrementalUpdate(completed, [], pending, NodesOf(completedBlocks) + NodesOf(pending));
      SameRest(parse, lines, lineOffsets, pendingStartLine, pendingStartLine, Pending, c1, old(blockIdCounter) + |update.completed|);
    }

    /** `buffer += chunk` followed by `updateLines`: the lines before the pending line stay put. */
    method AppendToBuffer(chunk: string)
      requires LinesValid() && ContextValid()
      modifies this`buffer, this`lines, this`lineOffsets
      ensures LinesValid() && ContextValid()
      ensures buffer == old(buffer) + chunk && lines == Split(buffer)
      ensures |old(lines)| <= |lines|
      ensures old(lines) != [] ==> lines[..|old(lines)| - 1] == old(lines)[..|old(lines)| - 1]
    {
      ghost var lines0 := lines;
      if lines != [] {
        LinesBeforeAppend(buffer, chunk, lines);
      }
      buffer := buffer + chunk;
      UpdateLines();
      if !finalized && pendingStartLine > 0 {
        PrefixKept(lines0, lines, pendingStartLine, context, step);
      }
    }

    /**
     * Scan for the stable boundary and, when it lies at or after the pending
     * line, commit the lines up to it.
     */
    method CommitIfStable() returns (completed: seq<ParsedBlock>)
      requires StepValid() && IsLineOffsets(lines, lineOffsets) && ContextValid() && CompletedValid()
      modifies this`completedBlocks, this`completedNums, this`blockIdCounter, this`context, this`pendingStartLine
      ensures ContextValid() && CompletedValid()
      ensures var c := CommitStep(parse, lines, lineOffsets, old(pendingStartLine), old(context), verdict, step,
                                  old(blockIdCounter));
        pendingStartLine == c.next && context == c.context && completed == c.blocks
      ensures completedBlocks == old(completedBlocks) + completed
      ensures blockIdCounter == old(blockIdCounter) + |completed|
    {
      ghost var p0, context0, c0 := pendingStartLine, context, blockIdCounter;
      var stableBoundary, contextAtLine := FindStableBoundary();
      CommitStepOf(parse, lines, lineOffsets, p0, context0, verdict, step, c0, stableBoundary, contextAtLine);
      completed := [];
      if stableBoundary >= pendingStartLine && stableBoundary >= 0 {
        CommitFacts(lines, pendingStartLine, context, verdict, step, stableBoundary, contextAtLine);
        completed := CommitStable(stableBoundary, contextAtLine);
      }
    }

    /**
     * Commit the lines from the pending line through the stable boundary:
     * parse them, push their blocks as completed, and resume the detector
     * after them.
     */
    method CommitStable(stableBoundary: int, contextAtLine: BlockContext) returns (completed: seq<ParsedBlock>)
      requires IsLineOffsets(lines, lineOffsets) && ContextValid() && CompletedValid()
      requires pendingStartLine <= stableBoundary && stableBoundary + 1 < |lines|
      requires !finalized ==>
        contextAtLine == RunLines(CreateInitialContext(), lines[..stableBoundary + 1], step)
      modifies this`completedBlocks, this`completedNums, this`blockIdCounter, this`context, this`pendingStartLine
      ensures ContextValid() && CompletedValid()
      ensures pendingStartLine == stableBoundary + 1 && context == contextAtLine
      ensures completed == LineBlocks(parse, lines, lineOffsets, old(pendingStartLine), stableBoundary + 1, Completed,
                                      old(blockIdCounter))
      ensures completedBlocks == old(completedBlocks) + completed
      ensures blockIdCounter == old(blockIdCounter) + |completed|
    {
      completed := CommitLines(pendingStartLine, stableBoundary + 1);
      ResumeAt(stableBoundary + 1, contextAtLine);
    }

    /** Parse lines `a` up to `b` and push their blocks as completed. */
    method CommitLines(a: nat, b: nat) returns (completed: seq<ParsedBlock>)
      requires IsLineOffsets(lines, lineOffsets) && a <= b <= |lines| && CompletedValid()
      modifies this`completedBlocks, this`completedNums, this`blockIdCounter
      ensures CompletedValid()
      ensures completed == LineBlocks(parse, lines, lineOffsets, a, b, Completed, old(blockIdCounter))
      ensures completedBlocks == old(completedBlocks) + completed
      ensures blockIdCounter == old(blockIdCounter) + |completed|
    {
      ghost var c0 := blockIdCounter;
      completed := ParseLines(a, b, Completed);
      PushCompleted(completed, c0);
    }

    /** Resume the detector at line `line`, in the context the scan saved after the line before it. */
    method ResumeAt(line: nat, contextAtLine: BlockContext)
      requires line < |lines| && (!finalized ==> contextAtLine == RunLines(CreateInitialContext(), lines[..line], step))
      modifies this`context, this`pendingStartLine
      ensures ContextValid() && pendingStartLine == line && context == contextAtLine
    {
      context := contextAtLine;
      pendingStartLine := line;
    }

    /** `completedBlocks.push(...blocks)`, for blocks just numbered from `c0` on. */
    method PushCompleted(blocks: seq<ParsedBlock>, ghost c0: nat)
      requires Numbered(completedBlocks, completedNums, Completed) && Increasing(completedNums) && Within(completedNums, c0)
      requires Numbered(blocks, Range(c0, |blocks|), Completed) && blockIdCounter == c0 + |blocks|
      modifies this`completedBlocks, this`completedNums
      ensures CompletedValid()
      ensures completedBlocks == old(completedBlocks) + blocks
    {
      NumberingExtends(completedBlocks, completedNums, blocks, c0, Completed);
      completedBlocks := completedBlocks + blocks;
      completedNums := completedNums + Range(c0, |blocks|);
    }

    /** The blocks of lines `a` up to `b`, parsed as one text, with ids from the counter on. */
    method ParseLines(a: nat, b: nat, status: BlockStatus) returns (blocks: seq<ParsedBlock>)
      requires IsLineOffsets(lines, lineOffsets) && a <= b <= |lines|
      modifies this`blockIdCounter
      ensures blocks == LineBlocks(parse, lines, lineOffsets, a, b, status, old(blockIdCounter))
      ensures Numbered(blocks, Range(old(blockIdCounter), |blocks|), status)
      ensures blockIdCounter == old(blockIdCounter) + |blocks|
    {
      var text := Join(lines[a..b]);
      var offset := GetLineOffset(a);
      var ast := parse(text);
      blocks := NodesToBlocks(ast, offset, text, status);
      BlocksFromNumbered(ast, offset, 0, offset, text, status, old(blockIdCounter));
    }

    /**
     * Re-parse everything from the pending line on as pending blocks, unless
     * it is only whitespace; these become the pending blocks `getAst` reports.
     */
    method ParsePending() returns (pending: seq<ParsedBlock>)
      requires IsLineOffsets(lines, lineOffsets) && pendingStartLine <= |lines| && CompletedValid()
      modifies this`lastPendingBlocks, this`pendingNums, this`blockIdCounter
      ensures CompletedValid() && PendingValid()
      ensures pending == RestBlocks(parse, lines, lineOffsets, pendingStartLine, Pending, old(blockIdCounter))
      ensures lastPendingBlocks == pending
      ensures blockIdCounter == old(blockIdCounter) + |pending|
    {
      ghost var c1 := blockIdCounter;
      pending := ParseRest(Pending);
      RestNumbered(parse, lines, lineOffsets, pendingStartLine, Pending, c1);
      PendingNumbering(completedNums, pending, c1);
      lastPendingBlocks := pending;
      pendingNums := Range(c1, |pending|);
    }

    /** Commit the blocks of the text from the pending line on, unless it is all whitespace. */
    method CommitRest() returns (completed: seq<ParsedBlock>)
      requires IsLineOffsets(lines, lineOffsets) && pendingStartLine <= |lines| && CompletedValid()
      modifies this`completedBlocks, this`completedNums, this`blockIdCounter
      ensures CompletedValid()
      ensures completed == RestBlocks(parse, lines, lineOffsets, pendingStartLine, Completed, old(blockIdCounter))
      ensures completedBlocks == old(completedBlocks) + completed
      ensures blockIdCounter == old(blockIdCounter) + |completed|
    {
      ghost var c0 := blockIdCounter;
      completed := ParseRest(Completed);
      RestNumbered(parse, lines, lineOffsets, pendingStartLine, Completed, c0);
      PushCompleted(completed, c0);
    }

    /** The blocks of the text from the pending line on, unless it is all whitespace. */
    method ParseRest(status: BlockStatus) returns (blocks: seq<ParsedBlock>)
      requires IsLineOffsets(lines, lineOffsets) && pendingStartLine <= |lines|
      modifies this`blockIdCounter
      ensures blocks == RestBlocks(parse, lines, lineOffsets, pendingStartLine, status, old(blockIdCounter))
      ensures blockIdCounter == old(blockIdCounter) + |blocks|
    {
      blocks := [];
      if pendingStartLine < |lines| {
        var text := Join(lines[pendingStartLine..]);
        if Trim(text) != "" {
          var offset := GetLineOffset(pendingStartLine);
          var ast := parse(text);
          blocks := NodesToBlocks(ast, offset, text, status);
        }
      }
    }

    /**
     * End of input: whatever follows the committed lines, unless it is all
     * whitespace, is parsed once more and committed as completed blocks.
     */
    method Finalize() returns (update: IncrementalUpdate)
      requires Valid()
      modifies this`completedBlocks, this`completedNums, this`blockIdCounter, this`pendingStartLine,
               this`lastPendingBlocks, this`pendingNums, this`finalized
      ensures Valid() && finalized
      ensures pendingStartLine == |lines| && lastPendingBlocks == []
      ensures update.completed == RestBlocks(parse, lines, lineOffsets, old(pendingStartLine), Completed, old(blockIdCounter))
      ensures completedBlocks == old(completedBlocks) + update.completed
      ensures blockIdCounter == old(blockIdCounter) + |update.completed|
      ensures update.updated == [] && update.pending == []
      ensures update.ast == NodesOf(completedBlocks) == GetAst()
    {
      var completed := CommitRest();
      ClearPending();
      update := IncrementalUpdate(completed, [], [], NodesOf(completedBlocks));
    }

    /** Drop the pending blocks and move the pending line past the last line: nothing is left to commit. */
    method ClearPending()
      requires StepValid() && LinesValid() && CompletedValid()
      modifies this`lastPendingBlocks, this`pendingNums, this`pendingStartLine, this`finalized
      ensures Valid() && finalized
      ensures pendingStartLine == |lines| && lastPendingBlocks == []
    {
      lastPendingBlocks := [];
      pendingNums := [];
      pendingStartLine := |lines|;
      finalized := true;
      assert completedNums + pendingNums == completedNums;
    }

    /** Stop early: the same as `finalize`, committing whatever is pending. */
    method Abort() returns (update: IncrementalUpdate)
      requires Valid()
      modifies this`completedBlocks, this`completedNums, this`blockIdCounter, this`pendingStartLine,
               this`lastPendingBlocks, this`pendingNums, this`finalized
      ensures Valid() && finalized
      ensures pendingStartLine == |lines| && lastPendingBlocks == []
      ensures update.completed == RestBlocks(parse, lines, lineOffsets, old(pendingStartLine), Completed, old(blockIdCounter))
      ensures completedBlocks == old(completedBlocks) + update.completed
      ensures blockIdCounter == old(blockIdCounter) + |update.completed|
      ensures update.updated == [] && update.pending == []
      ensures update.ast == NodesOf(completedBlocks) == GetAst()
    {
      update := Finalize();
    }

    /** Back to the state of a fresh parser; the id counter starts over. */
    method Reset()
      requires StepValid()
      modifies this
      ensures Initial() && Valid()
    {
      buffer := "";
      lines := [];
      lineOffsets := [0];
      completedBlocks := [];
      pendingStartLine := 0;
      blockIdCounter := 0;
      context := CreateInitialContext();
      lastPendingBlocks := [];
      completedNums := [];
      pendingNums := [];
      finalized := false;
      InitialValid();
    }

    /**
     * Parse a whole document at once: reset, append it as one chunk, finalize.
     * The completed blocks are those the single append commits from the first
     * line in the initial context, numbered from 1, then those of the rest,
     * numbered after the pending blocks that append parsed.
     */
    method Render(content: string) returns (update: IncrementalUpdate)
      requires StepValid()
      modifies this
      ensures Valid() && finalized && buffer == content && lines == Split(content)
      ensures RenderedAfter(parse, lines, lineOffsets, CommitStep(parse, lines, lineOffsets, 0, CreateInitialContext(), verdict, step, 0),
                            completedBlocks, update.completed, blockIdCounter)
      ensures pendingStartLine == |lines| && lastPendingBlocks == []
      ensures update.pending == [] && update.updated == [] && update.ast == NodesOf(completedBlocks) == GetAst()
    {
      Reset();
      update := AppendAndFinalize(content);
    }

    /** `render` after its `reset`: append the content as one chunk, then finalize. */
    method AppendAndFinalize(content: string) returns (update: IncrementalUpdate)
      requires Initial() && StepValid()
      modifies this
      ensures Valid() && finalized && buffer == content && lines == Split(content)
      ensures RenderedAfter(parse, lines, lineOffsets, CommitStep(parse, lines, lineOffsets, 0, CreateInitialContext(), verdict, step, 0),
                            completedBlocks, update.completed, blockIdCounter)
      ensures pendingStartLine == |lines| && lastPendingBlocks == []
      ensures update.pending == [] && update.updated == [] && update.ast == NodesOf(completedBlocks) == GetAst()
    {
      InitialValid();
      var appended := Append(content);
      ghost var c := CommitStep(parse, lines, lineOffsets, 0, CreateInitialContext(), verdict, step, 0);
      CommitStepRange(parse, lines, lineOffsets, 0, CreateInitialContext(), verdict, step, 0);
      ghost var pending := RestBlocks(parse, lines, lineOffsets, c.next, Pending, |c.blocks|);
      assert completedBlocks == c.blocks && pendingStartLine == c.next;
      assert blockIdCounter == |c.blocks| + |pending|;
      ghost var p1, k1, lines1, offsets1 := pendingStartLine, blockIdCounter, lines, lineOffsets;
      update := Finalize();
      assert lines == lines1 && lineOffsets == offsets1;
      RenderRest(parse, lines, lineOffsets, c, p1, k1, completedBlocks, update.completed, blockIdCounter);
    }

    /** All ids in the current AST are distinct. */
    lemma IdsDistinct()
      requires Valid()
      ensures var all := completedBlocks + lastPendingBlocks;
        forall i, j :: 0 <= i < j < |all| ==> all[i].id != all[j].id
    {
      var all := completedBlocks + lastPendingBlocks;
      var nums := completedNums + pendingNums;
      assert |all| == |nums|;
      forall i | 0 <= i < |all|
        ensures all[i].id == BlockId(nums[i])
      {
        if i < |completedBlocks| {
        } else {
          assert all[i] == lastPendingBlocks[i - |completedBlocks|];
        }
      }
      forall i, j | 0 <= i < j < |all|
        ensures all[i].id != all[j].id
      {
        if all[i].id == all[j].id {
          BlockIdInjective(nums[i], nums[j]);
        }
      }
    }
  }
}
