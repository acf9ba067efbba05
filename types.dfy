/**
 * The shared data model of the streaming Markdown engine: the Markdown AST
 * node as the engine sees it, the per-line block context, parsed blocks,
 * incremental updates, transformer blocks and plugins.
 */
module Types {

  import opened Text

  datatype Option<+T> = None | Some(value: T)

  /** `position.start.offset` and `position.end.offset` of a node, each optional. */
  datatype Position = Position(startOffset: Option<int>, endOffset: Option<int>)

  /**
   * A Markdown AST node. `Parent` is a node whose `children` field is an
   * array (possibly empty); `Leaf` is a node without a `children` array.
   * Both may carry a string `value`, a code-block `lang` and a source position.
   */
  datatype Node =
    | Leaf(kind: string, value: Option<string>, lang: Option<string>, position: Option<Position>)
    | Parent(kind: string, value: Option<string>, children: seq<Node>, lang: Option<string>, position: Option<Position>)

  /** The node carries a non-empty string value (JS truthiness of `n.value`). */
  predicate HasText(n: Node) {
    n.value.Some? && n.value.value != ""
  }

  /** A text node `{ type: 'text', value: v }`. */
  function TextNode(v: string): (n: Node)
    ensures n.kind == "text" && n.value == Some(v) && n.Leaf?
  {
    Leaf("text", Some(v), None, None)
  }

  // ---------------------------------------------------------------------
  // Block context (the line-level state machine)
  // ---------------------------------------------------------------------

  /** The only characters a code fence is made of. */
  type FenceChar = c: char | c == '`' || c == '~' witness '`'

  /** The container marker character; the regular expression that matches
      marker runs is only meaningful for a non-whitespace marker. */
  type MarkerChar = c: char | !IsWs(c) witness ':'

  /**
   * The context carried from line to line. The list and footnote fields of
   * the declared interface are never read or written by the detector, so
   * they are not part of the model; `listDepth` and `blockquoteDepth` are
   * only initialised and carried along.
   */
  datatype BlockContext = BlockContext(
    inFencedCode: bool,
    fenceChar: Option<FenceChar>,
    fenceLength: Option<nat>,
    listDepth: int,
    blockquoteDepth: int,
    inContainer: bool,
    containerMarkerLength: Option<nat>,
    containerName: Option<string>,
    containerDepth: int)

  /** `{ marker?, minMarkerLength?, allowedNames? }` */
  datatype ContainerConfig = ContainerConfig(
    marker: Option<MarkerChar>,
    minMarkerLength: Option<nat>,
    allowedNames: Option<seq<string>>)

  /** The `containers` option: absent, a boolean, or an explicit configuration. */
  datatype ContainerOption = Absent | Flag(enabled: bool) | Config(config: ContainerConfig)

  datatype ContainerMatch = ContainerMatch(name: string, markerLength: nat, isEnd: bool)

  // ---------------------------------------------------------------------
  // Parser output
  // ---------------------------------------------------------------------

  datatype BlockStatus = Pending | Stable | Completed

  datatype ParsedBlock = ParsedBlock(
    id: string,
    status: BlockStatus,
    node: Node,
    startOffset: int,
    endOffset: int,
    rawText: string)

  /** One update; `ast` is the list of children of the root node. */
  datatype IncrementalUpdate = IncrementalUpdate(
    completed: seq<ParsedBlock>,
    updated: seq<ParsedBlock>,
    pending: seq<ParsedBlock>,
    ast: seq<Node>)

  function NodesOf(blocks: seq<ParsedBlock>): (r: seq<Node>)
    ensures |r| == |blocks|
    ensures forall i :: 0 <= i < |blocks| ==> r[i] == blocks[i].node
  {
    if blocks == [] then [] else [blocks[0].node] + NodesOf(blocks[1..])
  }

  // ---------------------------------------------------------------------
  // Transformer input and output
  // ---------------------------------------------------------------------

  datatype SourceBlock<T> = SourceBlock(id: string, node: Node, status: BlockStatus, meta: Option<T>)

  datatype DisplayBlock<T> = DisplayBlock(
    id: string,
    node: Node,
    status: BlockStatus,
    meta: Option<T>,
    displayNode: Node,
    progress: real,
    isDisplayComplete: bool)

  /**
   * A transformer plugin. Every hook is optional; `count` answers `None` for
   * "undefined" and `slice` answers `None` for "null".
   */
  datatype Plugin = Plugin(
    name: string,
    matcher: Option<Node -> bool>,
    count: Option<Node -> Option<int>>,
    slice: Option<(Node, int, int) -> Option<Node>>)
}
