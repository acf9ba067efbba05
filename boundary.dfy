/**
 * Where the streaming parser may cut its input: the per-line stability test
 * and the scan over the pending lines that finds the last stable boundary
 * (packages/core/src/parser/IncremarkParser.ts, `checkStability` and
 * `findStableBoundary`), as functions of the line list.
 */
module Boundary {

  import opened Text
  import opened Types
  import opened Detector

  /** How the parser hands its resolved container configuration to `updateContext`. */
  function OptionOf(config: Option<ContainerConfig>): (r: ContainerOption)
    ensures ResolveContainers(r) == config
  {
    if config.Some? then Config(config.value) else Absent
  }

  /** `line` opens a block that ends the non-empty block on `prevLine`. */
  predicate StartsNewBlock(line: string, prevLine: string, config: Option<ContainerConfig>) {
    || IsHeading(line)
    || DetectFenceStart(line).Some?
    || (IsBlockquoteStart(line) && !IsBlockquoteStart(prevLine))
    || (IsListItemStart(line).Some? && IsListItemStart(prevLine).None?)
    || (config.Some? && DetectContainer(line, config.value).Some? && !DetectContainer(line, config.value).value.isEnd
        && (DetectContainer(prevLine, config.value).None? || DetectContainer(prevLine, config.value).value.isEnd))
  }

  /**
   * `checkStability(i)`: the last line of a finished block given line `i`,
   * or -1. The first line is never stable; a heading or thematic break on
   * the previous line is finished even when `i` is the last line; otherwise
   * the last line is never stable; a new block after a non-empty line
   * finishes the line before it; a blank line after a non-empty line
   * finishes itself.
   */
  function CheckStability(lines: seq<string>, i: nat, config: Option<ContainerConfig>): (r: int)
    requires i < |lines|
    ensures r == -1 || r == i - 1 || r == i
    ensures i == 0 ==> r == -1
    ensures r == i ==> i < |lines| - 1 && IsEmptyLine(lines[i]) && !IsEmptyLine(lines[i - 1])
    ensures i > 0 ==> (r == i - 1 <==>
      || IsHeading(lines[i - 1]) || IsThematicBreak(lines[i - 1])
      || (i < |lines| - 1 && !IsEmptyLine(lines[i - 1]) && StartsNewBlock(lines[i], lines[i - 1], config)))
  {
    if i == 0 then -1
    else
      var line, prevLine := lines[i], lines[i - 1];
      if IsHeading(prevLine) || IsThematicBreak(prevLine) then i - 1
      else if i >= |lines| - 1 then -1
      else if !IsEmptyLine(prevLine) && IsHeading(line) then i - 1
      else if !IsEmptyLine(prevLine) && DetectFenceStart(line).Some? then i - 1
      else if !IsEmptyLine(prevLine) && IsBlockquoteStart(line) && !IsBlockquoteStart(prevLine) then i - 1
      else if !IsEmptyLine(prevLine) && IsListItemStart(line).Some? && IsListItemStart(prevLine).None? then i - 1
      else if !IsEmptyLine(prevLine) && config.Some? && DetectContainer(line, config.value).Some?
              && !DetectContainer(line, config.value).value.isEnd
              && (DetectContainer(prevLine, config.value).None? || DetectContainer(prevLine, config.value).value.isEnd) then
        i - 1
      else if IsEmptyLine(line) && !IsEmptyLine(prevLine) then i
      else -1
  }

  // ---------------------------------------------------------------------
  // The scan
  // ---------------------------------------------------------------------

  /** The line-to-line transition of a parser with container configuration `config`. */
  function Transition(config: Option<ContainerConfig>): (next: (string, BlockContext) -> BlockContext)
    ensures forall line, context :: next(line, context) == UpdateContext(line, context, OptionOf(config))
  {
    (line, context) => UpdateContext(line, context, OptionOf(config))
  }

  /** The context obtained by feeding `ls` to the transition one line after another. */
  function RunLines(context: BlockContext, ls: seq<string>, next: (string, BlockContext) -> BlockContext): BlockContext
    decreases |ls|
  {
    if ls == [] then context
    else next(ls[|ls| - 1], RunLines(context, ls[..|ls| - 1], next))
  }

  /** `checkStability(i)` of a parser with container configuration `config`; -1 past the last line. */
  function Verdicts(config: Option<ContainerConfig>): (verdict: (seq<string>, nat) -> int)
    ensures forall lines: seq<string>, i: nat :: verdict(lines, i) == if i < |lines| then CheckStability(lines, i, config) else -1
  {
    (lines: seq<string>, i: nat) => if i < |lines| then CheckStability(lines, i, config) else -1
  }

  /**
   * The answers of `verdict` for every line. They depend only on the lines,
   * never on the context, so the scan below takes them as a table.
   */
  function Stabilities(lines: seq<string>, verdict: (seq<string>, nat) -> int): (stab: seq<int>)
    ensures |stab| == |lines|
    ensures forall i :: 0 <= i < |lines| ==> stab[i] == verdict(lines, i)
  {
    seq(|lines|, i requires 0 <= i < |lines| => verdict(lines, i))
  }

  /** What every answer of `checkStability` satisfies: none, the line itself or the one before, never the last. */
  predicate StabilityShape(n: nat, stab: seq<int>) {
    |stab| == n
    && forall i :: 0 <= i < n ==> stab[i] == -1 || ((stab[i] == i || stab[i] == i - 1) && stab[i] <= n - 2)
  }

  /** `verdict` answers as `checkStability` can: -1, the line itself or the one before, never the last line. */
  ghost predicate VerdictShape(verdict: (seq<string>, nat) -> int) {
    forall lines: seq<string>, i: nat :: i < |lines| ==>
      var v := verdict(lines, i);
      v == -1 || ((v == i || v == i - 1) && v <= |lines| - 2)
  }

  lemma VerdictsShaped(config: Option<ContainerConfig>)
    ensures VerdictShape(Verdicts(config))
  {
  }

  lemma StabilitiesShape(lines: seq<string>, verdict: (seq<string>, nat) -> int)
    requires VerdictShape(verdict)
    ensures StabilityShape(|lines|, Stabilities(lines, verdict))
  {
  }

  /**
   * What iteration `i` of the scan sets the stable line to (-1: leaves it):
   * leaving a fence or the outermost container ends a block unless it
   * happens on the last line; inside a fence or a container nothing is
   * stable; otherwise `checkStability` (`stable`) decides. `before` and
   * `after` are the contexts around line `i` of `n`.
   */
  function Candidate(i: nat, n: nat, before: BlockContext, after: BlockContext, stable: int): (c: int)
    ensures ConsultsStability(before, after) ==> c == stable
    ensures !ConsultsStability(before, after) ==> c == -1 || c == i
  {
    if before.inFencedCode && !after.inFencedCode then
      if i < n - 1 then i else -1
    else if after.inFencedCode then -1
    else if before.inContainer && before.containerDepth == 1 && !after.inContainer then
      if i < n - 1 then i else -1
    else if after.inContainer then -1
    else stable
  }

  /** Iteration `i` reaches `checkStability`: the line neither is in nor leaves a fence or a container. */
  predicate ConsultsStability(before: BlockContext, after: BlockContext) {
    && !(before.inFencedCode && !after.inFencedCode) && !after.inFencedCode
    && !(before.inContainer && before.containerDepth == 1 && !after.inContainer) && !after.inContainer
  }

  /** The loop state of `findStableBoundary`: the running context, the stable line and the context saved with it. */
  datatype Scan = Scan(temp: BlockContext, line: int, snapshot: BlockContext)

  /** One iteration of the scan, on line `i`. */
  function Step(lines: seq<string>, i: nat, s: Scan, stab: seq<int>, next: (string, BlockContext) -> BlockContext): Scan
    requires i < |lines| == |stab|
  {
    var after := next(lines[i], s.temp);
    var c := Candidate(i, |lines|, s.temp, after, stab[i]);
    if c >= 0 then Scan(after, c, after) else Scan(after, s.line, s.snapshot)
  }

  /**
   * The scan state after iterations `start` .. `j - 1`, starting from
   * `context`; the parser's scan is `ScanUpTo(lines, start, |lines|,
   * context, Stabilities(lines, Verdicts(config)), Transition(config))`.
   */
  function ScanUpTo(lines: seq<string>, start: nat, j: nat, context: BlockContext, stab: seq<int>,
                    next: (string, BlockContext) -> BlockContext): Scan
    requires start <= j <= |lines| == |stab|
    decreases j - start
  {
    if j == start then Scan(context, -1, context)
    else Step(lines, j - 1, ScanUpTo(lines, start, j - 1, context, stab, next), stab, next)
  }

  /** The candidate of iteration `i` of a scan that started at `start`. */
  function CandidateAt(lines: seq<string>, start: nat, i: nat, context: BlockContext, stab: seq<int>,
                       next: (string, BlockContext) -> BlockContext): int
    requires start <= i < |lines| == |stab|
  {
    var before := RunLines(context, lines[start..i], next);
    Candidate(i, |lines|, before, next(lines[i], before), stab[i])
  }

  // ---------------------------------------------------------------------
  // Properties of the stability test
  // ---------------------------------------------------------------------

  /** A blank line opens no block. */
  lemma EmptyLineStartsNothing(line: string, prevLine: string, config: Option<ContainerConfig>)
    requires IsEmptyLine(line)
    ensures !StartsNewBlock(line, prevLine, config)
  {
    LeadingWsAll(line);
    if line != [] {
      assert IsWs(line[0]);
    }
  }

  /** A blank line after a non-empty line that is not a heading or a break ends a paragraph, unless it is the last line. */
  lemma BlankLineEndsBlock(lines: seq<string>, i: nat, config: Option<ContainerConfig>)
    requires 0 < i < |lines| - 1
    requires IsEmptyLine(lines[i]) && !IsEmptyLine(lines[i - 1])
    requires !IsHeading(lines[i - 1]) && !IsThematicBreak(lines[i - 1])
    ensures CheckStability(lines, i, config) == i
  {
    EmptyLineStartsNothing(lines[i], lines[i - 1], config);
  }

  // ---------------------------------------------------------------------
  // Properties of the scan
  // ---------------------------------------------------------------------

  /** Running one more line is one more transition. */
  lemma RunLinesAppend(context: BlockContext, ls: seq<string>, line: string, next: (string, BlockContext) -> BlockContext)
    ensures RunLines(context, ls + [line], next) == next(line, RunLines(context, ls, next))
  {
    assert (ls + [line])[..|ls|] == ls;
  }

  /** Running two stretches of lines is running their concatenation. */
  /** Running the detector over any lines keeps a well-formed context well formed. */
  lemma {:induction false} RunLinesWellFormed(context: BlockContext, ls: seq<string>, config: Option<ContainerConfig>)
    requires WellFormed(context)
    ensures WellFormed(RunLines(context, ls, Transition(config)))
    decreases |ls|
  {
    if ls != [] {
      RunLinesWellFormed(context, ls[..|ls| - 1], config);
      UpdateContextPreservesWellFormed(ls[|ls| - 1], RunLines(context, ls[..|ls| - 1], Transition(config)), OptionOf(config));
    }
  }

  lemma {:induction false} RunLinesConcat(context: BlockContext, a: seq<string>, b: seq<string>, next: (string, BlockContext) -> BlockContext)
    ensures RunLines(context, a + b, next) == RunLines(RunLines(context, a, next), b, next)
    decreases |b|
  {
    if b == [] {
      assert a + b == a;
    } else {
      var init := b[..|b| - 1];
      assert a + b == (a + init) + [b[|b| - 1]];
      RunLinesAppend(context, a + init, b[|b| - 1], next);
      RunLinesConcat(context, a, init, next);
      RunLinesAppend(RunLines(context, a, next), init, b[|b| - 1], next);
      assert init + [b[|b| - 1]] == b;
    }
  }

  /** The scan's running context is the context after all lines scanned so far. */
  lemma {:induction false} ScanTemp(lines: seq<string>, start: nat, j: nat, context: BlockContext, stab: seq<int>,
                                    next: (string, BlockContext) -> BlockContext)
    requires start <= j <= |lines| == |stab|
    ensures ScanUpTo(lines, start, j, context, stab, next).temp == RunLines(context, lines[start..j], next)
    decreases j - start
  {
    if j > start {
      ScanTemp(lines, start, j - 1, context, stab, next);
      assert lines[start..j] == lines[start..j - 1] + [lines[j - 1]];
      RunLinesAppend(context, lines[start..j - 1], lines[j - 1], next);
    }
  }

  /** A candidate is the line itself or the one before it, and never the last line. */
  lemma CandidateRange(i: nat, n: nat, before: BlockContext, after: BlockContext, stab: seq<int>)
    requires i < n && StabilityShape(n, stab)
    ensures var c := Candidate(i, n, before, after, stab[i]);
      c == -1 || ((c == i || c == i - 1) && c <= n - 2)
  {
  }

  /**
   * The stable line found is -1 or a line from `start - 1` to the one
   * before the last; it is never the last line, which may still grow.
   */
  lemma {:induction false} ScanRange(lines: seq<string>, start: nat, j: nat, context: BlockContext, stab: seq<int>,
                                     next: (string, BlockContext) -> BlockContext)
    requires start <= j <= |lines| && StabilityShape(|lines|, stab)
    ensures var b := ScanUpTo(lines, start, j, context, stab, next).line;
      b == -1 || (start - 1 <= b < j && b <= |lines| - 2)
    decreases j - start
  {
    if j > start {
      ScanRange(lines, start, j - 1, context, stab, next);
      var s := ScanUpTo(lines, start, j - 1, context, stab, next);
      CandidateRange(j - 1, |lines|, s.temp, next(lines[j - 1], s.temp), stab);
    }
  }

  /**
   * The stable line found is the largest candidate: no iteration proposed a
   * later line, and a non-negative result was proposed by some iteration.
   */
  lemma {:induction false} ScanIsLargestCandidate(lines: seq<string>, start: nat, j: nat, context: BlockContext, stab: seq<int>,
                                                  next: (string, BlockContext) -> BlockContext)
    requires start <= j <= |lines| && StabilityShape(|lines|, stab)
    ensures var b := ScanUpTo(lines, start, j, context, stab, next).line;
      && (forall i :: start <= i < j ==> CandidateAt(lines, start, i, context, stab, next) <= b)
      && (b >= 0 ==> exists i :: start <= i < j && CandidateAt(lines, start, i, context, stab, next) == b)
    decreases j - start
  {
    if j > start {
      var i := j - 1;
      ScanIsLargestCandidate(lines, start, i, context, stab, next);
      ScanTemp(lines, start, i, context, stab, next);
      var s := ScanUpTo(lines, start, i, context, stab, next);
      var c := Candidate(i, |lines|, s.temp, next(lines[i], s.temp), stab[i]);
      assert CandidateAt(lines, start, i, context, stab, next) == c;
      CandidateRange(i, |lines|, s.temp, next(lines[i], s.temp), stab);
      forall k | start <= k < i
        ensures CandidateAt(lines, start, k, context, stab, next) <= i - 1
      {
        var before := RunLines(context, lines[start..k], next);
        CandidateRange(k, |lines|, before, next(lines[k], before), stab);
      }
      var b := ScanUpTo(lines, start, j, context, stab, next).line;
      if c >= 0 {
        assert b == c;
      } else {
        ScanRange(lines, start, i, context, stab, next);
        assert b == s.line;
      }
    }
  }

  /** A line on which `checkStability` is consulted leaves the context as it was. */
  lemma QuietLine(line: string, before: BlockContext, config: Option<ContainerConfig>)
    requires ConsultsStability(before, UpdateContext(line, before, OptionOf(config)))
    ensures UpdateContext(line, before, OptionOf(config)) == before
  {
  }

  /** A transition that leaves alone every line on which `checkStability` is consulted, as `updateContext` does. */
  ghost predicate QuietOutside(next: (string, BlockContext) -> BlockContext) {
    forall line, before :: ConsultsStability(before, next(line, before)) ==> next(line, before) == before
  }

  lemma TransitionIsQuiet(config: Option<ContainerConfig>)
    ensures QuietOutside(Transition(config))
  {
    forall line, before | ConsultsStability(before, Transition(config)(line, before))
      ensures Transition(config)(line, before) == before
    {
      QuietLine(line, before, config);
    }
  }

  /**
   * The context saved with the stable line is the context after that line:
   * the next scan, starting on the line after it, resumes exactly where a
   * scan over all lines would be.
   */
  lemma {:induction false} ScanSnapshot(lines: seq<string>, start: nat, j: nat, context: BlockContext, stab: seq<int>,
                                        next: (string, BlockContext) -> BlockContext)
    requires start <= j <= |lines| && StabilityShape(|lines|, stab) && QuietOutside(next)
    ensures var s := ScanUpTo(lines, start, j, context, stab, next);
      s.line >= 0 ==> start <= s.line + 1 <= |lines| && s.snapshot == RunLines(context, lines[start..s.line + 1], next)
    decreases j - start
  {
    if j > start {
      var i := j - 1;
      ScanSnapshot(lines, start, i, context, stab, next);
      ScanTemp(lines, start, i, context, stab, next);
      ScanRange(lines, start, j, context, stab, next);
      var s := ScanUpTo(lines, start, i, context, stab, next);
      var after := next(lines[i], s.temp);
      var c := Candidate(i, |lines|, s.temp, after, stab[i]);
      CandidateRange(i, |lines|, s.temp, after, stab);
      assert lines[start..j] == lines[start..i] + [lines[i]];
      RunLinesAppend(context, lines[start..i], lines[i], next);
      if c >= 0 && c != i {
        // only `checkStability` proposes the line before: this line left the context alone
        assert ConsultsStability(s.temp, after);
      }
    }
  }

  /** A candidate line never leaves the scan inside fenced code. */
  lemma CandidateOutsideFence(i: nat, n: nat, before: BlockContext, after: BlockContext, stable: int)
    requires Candidate(i, n, before, after, stable) >= 0
    ensures !after.inFencedCode
  {
  }

  /**
   * A candidate inside a container comes only from a closing fence: the
   * fence test runs before the container test, so a fence that closes
   * inside a container ends a block there.
   */
  lemma CandidateInsideContainer(line: string, i: nat, n: nat, before: BlockContext, stable: int, config: Option<ContainerConfig>)
    requires var after := UpdateContext(line, before, OptionOf(config));
      Candidate(i, n, before, after, stable) >= 0 && after.inContainer
    ensures before.inFencedCode && DetectFenceEnd(line, before)
  {
  }

  /** A closing fence inside a container, on any line but the last, is a stable line. */
  lemma FenceCloseInContainer(line: string, i: nat, n: nat, before: BlockContext, stable: int, config: Option<ContainerConfig>)
    requires i < n - 1
    requires before.inFencedCode && before.inContainer && DetectFenceEnd(line, before)
    ensures var after := UpdateContext(line, before, OptionOf(config));
      Candidate(i, n, before, after, stable) == i && after.inContainer
  {
  }

  /** Leaving a fence or a container on the last line gives no stable line. */
  lemma LastLineExitIsNotStable(n: nat, before: BlockContext, after: BlockContext, stab: seq<int>)
    requires n >= 1 && StabilityShape(n, stab)
    ensures Candidate(n - 1, n, before, after, stab[n - 1]) != n - 1
  {
  }

  /** The stable line found never leaves the scan in fenced code. */
  lemma {:induction false} ScanOutsideFence(lines: seq<string>, start: nat, j: nat, context: BlockContext, stab: seq<int>,
                                            next: (string, BlockContext) -> BlockContext)
    requires start <= j <= |lines| == |stab|
    requires !context.inFencedCode
    ensures !ScanUpTo(lines, start, j, context, stab, next).snapshot.inFencedCode
    decreases j - start
  {
    if j > start {
      var i := j - 1;
      ScanOutsideFence(lines, start, i, context, stab, next);
      var s := ScanUpTo(lines, start, i, context, stab, next);
      var after := next(lines[i], s.temp);
      if Candidate(i, |lines|, s.temp, after, stab[i]) >= 0 {
        CandidateOutsideFence(i, |lines|, s.temp, after, stab[i]);
      }
    }
  }
}
