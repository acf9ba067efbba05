/**
 * Line classification and the block-context transition of the streaming
 * parser (packages/core/src/detector/index.ts). Every predicate follows the
 * regular expression the source uses, not the CommonMark standard it is
 * loosely based on; the lemmas at the end state each expression's meaning
 * independently of the scanning code that implements it.
 */
module Detector {

  import opened Text
  import opened Types

  // ---------------------------------------------------------------------
  // Code fences
  // ---------------------------------------------------------------------

  datatype Fence = Fence(fenceChar: FenceChar, length: nat)

  predicate IsFenceChar(c: char) {
    c == '`' || c == '~'
  }

  /**
   * `/^(\s*)((`{3,})|(~{3,}))/`: any amount of leading whitespace, then a
   * maximal run of at least three backticks or tildes.
   */
  function DetectFenceStart(line: string): (r: Option<Fence>)
    ensures r.Some? ==> r.value.length >= 3
    ensures r.Some? ==>
      var k := LeadingWs(line);
      k + r.value.length <= |line| && line[k] == r.value.fenceChar
      && forall j :: k <= j < k + r.value.length ==> line[j] == r.value.fenceChar
    ensures r.Some? ==>
      var k := LeadingWs(line);
      k + r.value.length == |line| || line[k + r.value.length] != r.value.fenceChar
  {
    var k := LeadingWs(line);
    if k < |line| && IsFenceChar(line[k]) && Run(line, k, line[k]) >= 3 then
      Some(Fence(line[k], Run(line, k, line[k])))
    else
      None
  }

  /** Line `line` has whitespace up to `k` and three equal fence characters from `k`. */
  predicate FenceOpenerAt(line: string, k: nat) {
    k + 3 <= |line| && AllWs(line[..k]) && IsFenceChar(line[k])
    && line[k + 1] == line[k] && line[k + 2] == line[k]
  }

  /**
   * `^\s{0,3}C{L,}\s*$` for the open fence's character C and length L.
   * False unless a fence is open with a character and a non-zero length.
   */
  predicate DetectFenceEnd(line: string, context: BlockContext) {
    if !context.inFencedCode || context.fenceChar.None? || context.fenceLength.None?
       || context.fenceLength.value == 0 then
      false
    else
      var c, len := context.fenceChar.value, context.fenceLength.value;
      var k := LeadingWs(line);
      k <= 3 && Run(line, k, c) >= len && AllWs(line[k + Run(line, k, c)..])
  }

  /** The regular-expression reading of a closing fence: `j` (0-3) whitespace, `m >= len` copies of `c`, whitespace. */
  predicate FenceCloserAt(line: string, c: char, len: nat, j: nat, m: nat) {
    j <= 3 && j + m <= |line| && m >= len
    && AllWs(line[..j])
    && (forall i :: j <= i < j + m ==> line[i] == c)
    && AllWs(line[j + m..])
  }

  // ---------------------------------------------------------------------
  // Line classes
  // ---------------------------------------------------------------------

  /** `/^\s*$/` */
  predicate IsEmptyLine(line: string) {
    AllWs(line)
  }

  /** `/^#{1,6}\s/` */
  predicate IsHeading(line: string) {
    var r := Run(line, 0, '#');
    1 <= r <= 6 && r < |line| && IsWs(line[r])
  }

  predicate IsBreakChar(c: char) {
    c == '*' || c == '-' || c == '_'
  }

  /** `/^(\*{3,}|-{3,}|_{3,})\s*$/` applied to the trimmed line. */
  predicate IsThematicBreak(line: string) {
    var t := Trim(line);
    t != [] && IsBreakChar(t[0]) && Run(t, 0, t[0]) >= 3 && AllWs(t[Run(t, 0, t[0])..])
  }

  datatype ListItem = ListItem(ordered: bool, indent: nat)

  /** `/^(\s*)([-*+])\s/` */
  predicate UnorderedMarkerAt(line: string, k: nat) {
    k + 1 < |line| && (line[k] == '-' || line[k] == '*' || line[k] == '+') && IsWs(line[k + 1])
  }

  /** `/^(\s*)(\d{1,9})[.)]\s/` */
  predicate OrderedMarkerAt(line: string, k: nat)
    requires k <= |line|
  {
    var d := DigitRun(line, k);
    1 <= d <= 9 && k + d + 1 < |line| && (line[k + d] == '.' || line[k + d] == ')')
    && IsWs(line[k + d + 1])
  }

  /**
   * The unordered form is tried first, then the ordered one; `indent` is the
   * length of the leading whitespace in both cases.
   */
  function IsListItemStart(line: string): (r: Option<ListItem>)
    ensures r.Some? ==> r.value.indent == LeadingWs(line)
    ensures r.Some? && !r.value.ordered <==> UnorderedMarkerAt(line, LeadingWs(line))
    ensures r.Some? && r.value.ordered <==>
      !UnorderedMarkerAt(line, LeadingWs(line)) && OrderedMarkerAt(line, LeadingWs(line))
  {
    var k := LeadingWs(line);
    if UnorderedMarkerAt(line, k) then Some(ListItem(false, k))
    else if OrderedMarkerAt(line, k) then Some(ListItem(true, k))
    else None
  }

  /** `/^\s{0,3}>/` */
  predicate IsBlockquoteStart(line: string) {
    var k := LeadingWs(line);
    k <= 3 && k < |line| && line[k] == '>'
  }

  // ---------------------------------------------------------------------
  // Custom containers
  // ---------------------------------------------------------------------

  /** The capture groups of the container expression: marker length, name (group 3) and attributes (group 4, "" when absent). */
  datatype ContainerScan = ContainerScan(markerLength: nat, name: string, attrs: string)

  /** `(.*)\s*$` on `z`: `.` stops at the first line terminator, the rest must be whitespace. */
  predicate AttrTailOk(z: string) {
    AllWs(z[FirstTerminator(z)..])
  }

  /** What `(.*)` captures when `AttrTailOk(z)`. */
  function AttrText(z: string): string {
    z[..FirstTerminator(z)]
  }

  /**
   * `(?:\s+(.*))?\s*$` after group 3 failed or was skipped, on text `x`
   * that starts with a non-whitespace character.
   */
  function ScanAttrs(x: string): Option<(string, string)> {
    if AttrTailOk(x) then Some(("", AttrText(x))) else None
  }

  /**
   * `(\w[\w-]*)?(?:\s+(.*))?\s*$` after the whitespace that follows the
   * marker run: a name when `x` starts with a word character, falling back
   * to attributes only when nothing can follow the name.
   */
  function ScanNamed(x: string): Option<(string, string)>
    requires x != [] && !IsWs(x[0])
  {
    if IsWordChar(x[0]) then
      var n := NameRun(x);
      var y := x[n..];
      if AllWs(y) then Some((x[..n], ""))
      else if IsWs(y[0]) && AttrTailOk(y[LeadingWs(y)..]) then Some((x[..n], AttrText(y[LeadingWs(y)..])))
      else ScanAttrs(x)
    else
      ScanAttrs(x)
  }

  /** Everything after the marker run: `(name, attributes)`, `("", "")` for a bare marker. */
  function ScanTail(rest: string): Option<(string, string)> {
    if AllWs(rest) then Some(("", ""))
    else if !IsWs(rest[0]) then None
    else ScanNamed(rest[LeadingWs(rest)..])
  }

  /**
   * `^(\s*)(M{min,})(?:\s+(\w[\w-]*))?(?:\s+(.*))?\s*$`, with the regular
   * expression engine's greedy, backtracking choice of captures.
   */
  function ScanContainer(line: string, marker: MarkerChar, minLength: nat): (r: Option<ContainerScan>)
    requires minLength >= 1
    ensures r.Some? ==> r.value.markerLength >= minLength
  {
    var k := LeadingWs(line);
    var m := Run(line, k, marker);
    if m < minLength then None else AfterRun(m, ScanTail(line[k + m..]))
  }

  /** The scan once a marker run of length `m` has been read and the text after it captured `tail`. */
  function AfterRun(m: nat, tail: Option<(string, string)>): Option<ContainerScan> {
    if tail.None? then None else Some(ContainerScan(m, tail.value.0, tail.value.1))
  }

  /** A marker line that captured neither a name nor attributes. */
  predicate IsBareScan(r: Option<ContainerScan>) {
    r.Some? && r.value.name == "" && r.value.attrs == ""
  }

  function MarkerOf(config: ContainerConfig): MarkerChar {
    if config.marker.Some? then config.marker.value else ':'
  }

  /** `config.minMarkerLength || 3` */
  function MinLengthOf(config: ContainerConfig): (n: nat)
    ensures n >= 1
  {
    if config.minMarkerLength.Some? && config.minMarkerLength.value != 0 then
      config.minMarkerLength.value
    else
      3
  }

  /** A name filter applies: `allowedNames` is present and non-empty. */
  predicate Filters(config: ContainerConfig) {
    config.allowedNames.Some? && |config.allowedNames.value| > 0
  }

  /**
   * A container start or end marker. `isEnd` holds when the marker has
   * neither a name nor attributes; a start marker whose name is not allowed
   * is not a marker at all.
   */
  function DetectContainer(line: string, config: ContainerConfig): (r: Option<ContainerMatch>)
    ensures r.Some? ==> r.value.markerLength >= MinLengthOf(config)
  {
    match ScanContainer(line, MarkerOf(config), MinLengthOf(config))
    case None => None
    case Some(s) =>
      var isEnd := s.name == "" && s.attrs == "";
      if !isEnd && Filters(config) && s.name !in config.allowedNames.value then None
      else Some(ContainerMatch(s.name, s.markerLength, isEnd))
  }

  /** The line closes the innermost open container: an end marker at least as long as the opening one. */
  predicate DetectContainerEnd(line: string, context: BlockContext, config: ContainerConfig) {
    if !context.inContainer || context.containerMarkerLength.None?
       || context.containerMarkerLength.value == 0 then
      false
    else
      match DetectContainer(line, config)
      case None => false
      case Some(c) => c.isEnd && c.markerLength >= context.containerMarkerLength.value
  }

  // ---------------------------------------------------------------------
  // Boundaries and context
  // ---------------------------------------------------------------------

  /** Whether a block boundary lies between `prevLine` and `currentLine`. */
  predicate IsBlockBoundary(prevLine: string, currentLine: string, context: BlockContext) {
    if context.inFencedCode then DetectFenceEnd(currentLine, context)
    else
      (IsEmptyLine(prevLine) && !IsEmptyLine(currentLine))
      || (IsHeading(currentLine) && !IsEmptyLine(prevLine))
      || IsThematicBreak(currentLine)
      || DetectFenceStart(currentLine).Some?
  }

  function CreateInitialContext(): (c: BlockContext)
    ensures !c.inFencedCode && !c.inContainer && c.containerDepth == 0
  {
    BlockContext(false, None, None, 0, 0, false, None, None, 0)
  }

  /** `true` means the default configuration, `false` or absence means containers are off. */
  function ResolveContainers(option: ContainerOption): (r: Option<ContainerConfig>)
    ensures r.None? <==> option.Absent? || option == Flag(false)
    ensures option == Flag(true) ==> r == Some(ContainerConfig(None, None, None))
    ensures option.Config? ==> r == Some(option.config)
  {
    match option
    case Absent => None
    case Flag(b) => if b then Some(ContainerConfig(None, None, None)) else None
    case Config(c) => Some(c)
  }

  /**
   * The context after `line`. Fenced code has the highest priority: inside a
   * fence only the closing fence matters; outside, an opening fence always
   * wins, even inside a container; only then the container rules apply.
   */
  function UpdateContext(line: string, context: BlockContext, containerOption: ContainerOption): (r: BlockContext)
    ensures r.inFencedCode != context.inFencedCode ==>
      && r.inContainer == context.inContainer && r.containerDepth == context.containerDepth
      && r.containerMarkerLength == context.containerMarkerLength && r.containerName == context.containerName
    ensures r.containerDepth != context.containerDepth ==>
      && !context.inFencedCode && !r.inFencedCode
      && (r.containerDepth == context.containerDepth + 1 || r.containerDepth == context.containerDepth - 1
          || (!context.inContainer && r.containerDepth == 1))
    ensures r.listDepth == context.listDepth && r.blockquoteDepth == context.blockquoteDepth
  {
    var config := ResolveContainers(containerOption);
    if context.inFencedCode then
      if DetectFenceEnd(line, context) then
        context.(inFencedCode := false, fenceChar := None, fenceLength := None)
      else
        context
    else if DetectFenceStart(line).Some? then
      var fence := DetectFenceStart(line).value;
      context.(inFencedCode := true, fenceChar := Some(fence.fenceChar), fenceLength := Some(fence.length))
    else if config.None? then
      context
    else if context.inContainer then
      if DetectContainerEnd(line, context, config.value) then
        var depth := context.containerDepth - 1;
        if depth == 0 then
          context.(containerDepth := 0, inContainer := false, containerMarkerLength := None, containerName := None)
        else
          context.(containerDepth := depth)
      else if DetectContainer(line, config.value).Some? && !DetectContainer(line, config.value).value.isEnd then
        context.(containerDepth := context.containerDepth + 1)
      else
        context
    else if DetectContainer(line, config.value).Some? && !DetectContainer(line, config.value).value.isEnd then
      var c := DetectContainer(line, config.value).value;
      context.(inContainer := true, containerMarkerLength := Some(c.markerLength),
               containerName := Some(c.name), containerDepth := 1)
    else
      context
  }

  // ---------------------------------------------------------------------
  // Properties
  // ---------------------------------------------------------------------

  /** The consistency the transition keeps: fence fields set exactly while in a fence, container fields exactly while in a container. */
  predicate WellFormed(c: BlockContext) {
    && (c.inFencedCode <==> c.fenceChar.Some?)
    && (c.inFencedCode <==> c.fenceLength.Some?)
    && (c.fenceLength.Some? ==> c.fenceLength.value >= 3)
    && (c.inContainer <==> c.containerDepth >= 1)
    && (!c.inContainer ==> c.containerDepth == 0 && c.containerMarkerLength.None? && c.containerName.None?)
    && (c.inContainer ==> c.containerMarkerLength.Some? && c.containerMarkerLength.value >= 1 && c.containerName.Some?)
  }

  lemma InitialContextWellFormed()
    ensures WellFormed(CreateInitialContext())
  {
  }

  /** Every transition keeps the context well formed, whatever the container option. */
  lemma UpdateContextPreservesWellFormed(line: string, context: BlockContext, option: ContainerOption)
    requires WellFormed(context)
    ensures WellFormed(UpdateContext(line, context, option))
  {
  }

  /** Inside a fence only a closing fence changes the context, and it clears exactly the fence fields. */
  lemma UpdateInsideFence(line: string, context: BlockContext, option: ContainerOption)
    requires context.inFencedCode
    ensures DetectFenceEnd(line, context) ==>
      UpdateContext(line, context, option)
        == context.(inFencedCode := false, fenceChar := None, fenceLength := None)
    ensures !DetectFenceEnd(line, context) ==> UpdateContext(line, context, option) == context
  {
  }

  /** Outside a fence, an opening fence enters fenced code and leaves every container field as it was. */
  lemma FenceStartWins(line: string, context: BlockContext, option: ContainerOption)
    requires !context.inFencedCode && DetectFenceStart(line).Some?
    ensures var r := UpdateContext(line, context, option);
      && r.inFencedCode
      && r.fenceChar == Some(DetectFenceStart(line).value.fenceChar)
      && r.fenceLength == Some(DetectFenceStart(line).value.length)
      && r.inContainer == context.inContainer
      && r.containerDepth == context.containerDepth
      && r.containerMarkerLength == context.containerMarkerLength
      && r.containerName == context.containerName
  {
  }

  /** With containers disabled no container field ever changes. */
  lemma ContainersDisabledFrame(line: string, context: BlockContext, option: ContainerOption)
    requires option.Absent? || option == Flag(false)
    ensures var r := UpdateContext(line, context, option);
      && r.inContainer == context.inContainer
      && r.containerDepth == context.containerDepth
      && r.containerMarkerLength == context.containerMarkerLength
      && r.containerName == context.containerName
  {
  }

  /**
   * Inside a container (and outside a fence, on a line that opens none): an
   * end marker at least as long as the stored one decrements the depth, and
   * reaching 0 clears the container fields; a nested start marker
   * increments the depth; any other line changes nothing.
   */
  lemma ContainerNesting(line: string, context: BlockContext, config: ContainerConfig)
    requires !context.inFencedCode && context.inContainer && DetectFenceStart(line).None?
    ensures var r := UpdateContext(line, context, Config(config));
      if DetectContainerEnd(line, context, config) then
        && r.containerDepth == context.containerDepth - 1
        && (r.containerDepth == 0 ==> !r.inContainer && r.containerMarkerLength.None? && r.containerName.None?)
        && (r.containerDepth != 0 ==> r.inContainer && r.containerMarkerLength == context.containerMarkerLength)
      else if DetectContainer(line, config).Some? && !DetectContainer(line, config).value.isEnd then
        r == context.(containerDepth := context.containerDepth + 1)
      else
        r == context
  {
  }

  /** The closing-fence test is exactly its regular expression: 0-3 whitespace, at least `fenceLength` fence characters, then only whitespace. */
  lemma FenceEndMeaning(line: string, context: BlockContext)
    requires context.inFencedCode && context.fenceChar.Some? && context.fenceLength.Some?
    requires context.fenceLength.value != 0
    ensures DetectFenceEnd(line, context) <==>
      exists j: nat, m: nat :: FenceCloserAt(line, context.fenceChar.value, context.fenceLength.value, j, m)
  {
    var c, len := context.fenceChar.value, context.fenceLength.value;
    var k := LeadingWs(line);
    var run := Run(line, k, c);
    if DetectFenceEnd(line, context) {
      assert FenceCloserAt(line, c, len, k, run);
    }
    if j: nat, m: nat :| FenceCloserAt(line, c, len, j, m) {
      assert line[j] == c;
      LeadingWsAt(line, j);
      RunAtLeast(line, k, c, m);
      assert AllWs(line[k + run..]) by {
        forall i | k + run <= i < |line|
          ensures IsWs(line[i])
        {
          assert line[i] == line[j + m..][i - j - m];
        }
      }
    }
  }

  /** No closing fence is recognised unless a fence is open. */
  lemma FenceEndNeedsOpenFence(line: string, context: BlockContext)
    requires DetectFenceEnd(line, context)
    ensures context.inFencedCode && context.fenceChar.Some? && context.fenceLength.Some?
  {
  }

  /** A fence opens exactly where the first non-whitespace character starts three equal backticks or tildes. */
  lemma FenceStartMeaning(line: string)
    ensures DetectFenceStart(line).Some? <==> exists k: nat :: FenceOpenerAt(line, k)
  {
    var k := LeadingWs(line);
    if DetectFenceStart(line).Some? {
      assert FenceOpenerAt(line, k);
    }
    if j: nat :| FenceOpenerAt(line, j) {
      LeadingWsAt(line, j);
      RunAtLeast(line, k, line[k], 3);
    }
  }

  /** A thematic break has no interior spaces: the trimmed line is three or more copies of one of `*`, `-`, `_`. */
  lemma ThematicBreakMeaning(line: string)
    ensures IsThematicBreak(line) <==>
      var t := Trim(line);
      |t| >= 3 && IsBreakChar(t[0]) && forall i :: 0 <= i < |t| ==> t[i] == t[0]
  {
    var t := Trim(line);
    if t != [] && IsBreakChar(t[0]) {
      var r := Run(t, 0, t[0]);
      if forall i :: 0 <= i < |t| ==> t[i] == t[0] {
        assert r == |t|;
      }
    }
  }

  /** The attribute group captures at least one character when its text starts with a non-whitespace character. */
  lemma AttrTextNonEmpty(z: string)
    requires z != [] && !IsWs(z[0])
    ensures AttrText(z) != []
  {
  }

  /** Text that starts with a non-whitespace character always yields a name or attributes. */
  lemma ScanNamedNotBare(x: string)
    requires x != [] && !IsWs(x[0]) && ScanNamed(x).Some?
    ensures ScanNamed(x).value.0 != "" || ScanNamed(x).value.1 != ""
  {
    AttrTextNonEmpty(x);
    if IsWordChar(x[0]) {
      assert x[..NameRun(x)] != [];
    }
  }

  /** After the marker run, only trailing whitespace yields the bare end-marker reading. */
  lemma ScanTailBare(rest: string)
    ensures ScanTail(rest) == Some(("", "")) <==> AllWs(rest)
  {
    if !AllWs(rest) && IsWs(rest[0]) {
      var x := rest[LeadingWs(rest)..];
      assert x != [] && !IsWs(x[0]);
      if ScanNamed(x).Some? {
        ScanNamedNotBare(x);
      }
    }
  }

  /** Whitespace, a run of at least `minLength` markers, and whitespace: nothing else. */
  predicate BareMarkerLine(line: string, marker: MarkerChar, minLength: nat) {
    var k := LeadingWs(line);
    var m := Run(line, k, marker);
    m >= minLength && AllWs(line[k + m..])
  }

  /** The scan captures neither a name nor attributes exactly when the marker run is followed by whitespace only. */
  lemma ScanEndMeaning(line: string, marker: MarkerChar, minLength: nat)
    requires minLength >= 1
    ensures IsBareScan(ScanContainer(line, marker, minLength)) <==> BareMarkerLine(line, marker, minLength)
  {
    ScanContainerBare(line, marker, minLength);
    ScanTailBare(line[LeadingWs(line) + Run(line, LeadingWs(line), marker)..]);
  }

  /** Past a long enough marker run, the scan is bare exactly when the text after the run captures nothing. */
  lemma ScanContainerBare(line: string, marker: MarkerChar, minLength: nat)
    requires minLength >= 1
    ensures var k := LeadingWs(line); var m := Run(line, k, marker);
      IsBareScan(ScanContainer(line, marker, minLength)) <==> m >= minLength && ScanTail(line[k + m..]) == Some(("", ""))
  {
  }

  /** `isEnd` holds exactly for a marker line with neither name nor attributes. */
  lemma ContainerEndMeaning(line: string, config: ContainerConfig)
    ensures (DetectContainer(line, config).Some? && DetectContainer(line, config).value.isEnd)
            <==> BareMarkerLine(line, MarkerOf(config), MinLengthOf(config))
  {
    ScanEndMeaning(line, MarkerOf(config), MinLengthOf(config));
  }

  /** The name filter rejects only start markers whose name is not listed. */
  lemma AllowedNamesFilter(line: string, config: ContainerConfig)
    requires ScanContainer(line, MarkerOf(config), MinLengthOf(config)).Some?
    ensures var s := ScanContainer(line, MarkerOf(config), MinLengthOf(config)).value;
      DetectContainer(line, config).None? <==>
        (s.name != "" || s.attrs != "") && Filters(config) && s.name !in config.allowedNames.value
  {
  }

  /** `(\d{1,9})[.)]\s` read literally: `d` digits from `k`, then `.` or `)`, then whitespace. */
  predicate OrderedDigitsAt(line: string, k: nat, d: nat) {
    1 <= d <= 9 && k + d + 1 < |line|
    && (forall j :: k <= j < k + d ==> IsDigit(line[j]))
    && (line[k + d] == '.' || line[k + d] == ')') && IsWs(line[k + d + 1])
  }

  /** The greedy digit scan agrees with the regular expression's backtracking reading. */
  lemma OrderedMarkerMeaning(line: string, k: nat)
    requires k <= |line|
    ensures OrderedMarkerAt(line, k) <==> exists d: nat :: OrderedDigitsAt(line, k, d)
  {
    var run := DigitRun(line, k);
    if OrderedMarkerAt(line, k) {
      assert OrderedDigitsAt(line, k, run);
    }
    if d: nat :| OrderedDigitsAt(line, k, d) {
      DigitRunAtLeast(line, k, d);
    }
  }
}
