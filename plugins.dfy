/**
 * The built-in transformer plugins. A plugin claims nodes through its
 * matcher and may override how many characters a node counts and how it
 * is truncated: code blocks, mermaid diagrams and math appear whole, images
 * and thematic breaks count nothing and so appear at once.
 */
module Plugins {

  import opened Types

  /** Code blocks count as one character and appear only once fully revealed. */
  const CodeBlockPlugin: Plugin := Plugin(
    "code-block",
    Some((n: Node) => n.kind == "code"),
    Some((n: Node) => Some(1)),
    Some((n: Node, displayed: int, total: int) => if displayed >= total then Some(n) else None))

  /** Mermaid diagrams (code blocks in the `mermaid` language) appear whole as soon as anything is shown. */
  const MermaidPlugin: Plugin := Plugin(
    "mermaid",
    Some((n: Node) => n.kind == "code" && n.lang == Some("mermaid")),
    Some((n: Node) => Some(1)),
    Some((n: Node, displayed: int, total: int) => if displayed > 0 then Some(n) else None))

  /** Images count no characters. */
  const ImagePlugin: Plugin := Plugin(
    "image",
    Some((n: Node) => n.kind == "image"),
    Some((n: Node) => Some(0)),
    None)

  /** Block and inline math appear whole as soon as anything is shown. */
  const MathPlugin: Plugin := Plugin(
    "math",
    Some((n: Node) => n.kind == "math" || n.kind == "inlineMath"),
    Some((n: Node) => Some(1)),
    Some((n: Node, displayed: int, total: int) => if displayed > 0 then Some(n) else None))

  /** Thematic breaks count no characters. */
  const ThematicBreakPlugin: Plugin := Plugin(
    "thematic-break",
    Some((n: Node) => n.kind == "thematicBreak"),
    Some((n: Node) => Some(0)),
    None)

  /** Only the nodes without text are treated specially by default. */
  const DefaultPlugins: seq<Plugin> := [ImagePlugin, ThematicBreakPlugin]

  /** Every built-in plugin, mermaid ahead of plain code blocks. */
  const AllPlugins: seq<Plugin> := [MermaidPlugin, CodeBlockPlugin, ImagePlugin, MathPlugin, ThematicBreakPlugin]

  /** The optional hooks a custom plugin may supply besides its name and matcher. */
  datatype PluginHooks = PluginHooks(
    count: Option<Node -> Option<int>>,
    slice: Option<(Node, int, int) -> Option<Node>>)

  /** `createPlugin(name, matcher, options)`: the name and matcher with the supplied hooks. */
  function CreatePlugin(name: string, matcher: Node -> bool, options: PluginHooks): (p: Plugin)
    ensures p.name == name && p.matcher == Some(matcher)
    ensures p.count == options.count && p.slice == options.slice
  {
    Plugin(name, Some(matcher), options.count, options.slice)
  }

  /** The plugin's matcher is present and holds for `n`. */
  predicate Claims(p: Plugin, n: Node) {
    p.matcher.Some? && p.matcher.value(n)
  }

  /** The count hook's answer for `n`, `None` when there is no hook or it answers undefined. */
  function HookCount(p: Plugin, n: Node): Option<int> {
    if p.count.Some? then p.count.value(n) else None
  }

  /** The slice hook's answer, `None` when there is no hook or it answers null. */
  function HookSlice(p: Plugin, n: Node, displayed: int, total: int): Option<Node> {
    if p.slice.Some? then p.slice.value(n, displayed, total) else None
  }

  /** Code blocks: claimed exactly when the node is code, count 1, shown whole once everything is displayed and not before. */
  lemma CodeBlockContract(n: Node, displayed: int, total: int)
    ensures Claims(CodeBlockPlugin, n) <==> n.kind == "code"
    ensures HookCount(CodeBlockPlugin, n) == Some(1)
    ensures HookSlice(CodeBlockPlugin, n, displayed, total) == if displayed >= total then Some(n) else None
  {
  }

  /** Mermaid: claimed only for code in the `mermaid` language, count 1, shown whole once anything is displayed. */
  lemma MermaidContract(n: Node, displayed: int, total: int)
    ensures Claims(MermaidPlugin, n) <==> n.kind == "code" && n.lang == Some("mermaid")
    ensures HookCount(MermaidPlugin, n) == Some(1)
    ensures HookSlice(MermaidPlugin, n, displayed, total) == if displayed > 0 then Some(n) else None
  {
  }

  /** Math: claimed for `math` and `inlineMath`, count 1, shown whole once anything is displayed. */
  lemma MathContract(n: Node, displayed: int, total: int)
    ensures Claims(MathPlugin, n) <==> n.kind == "math" || n.kind == "inlineMath"
    ensures HookCount(MathPlugin, n) == Some(1)
    ensures HookSlice(MathPlugin, n, displayed, total) == if displayed > 0 then Some(n) else None
  {
  }

  /** Images and thematic breaks: claimed by their node type, count 0 and have no slice hook. */
  lemma ZeroCountContract(n: Node)
    ensures Claims(ImagePlugin, n) <==> n.kind == "image"
    ensures Claims(ThematicBreakPlugin, n) <==> n.kind == "thematicBreak"
    ensures HookCount(ImagePlugin, n) == Some(0) && ImagePlugin.slice.None?
    ensures HookCount(ThematicBreakPlugin, n) == Some(0) && ThematicBreakPlugin.slice.None?
  {
  }

  /** Every node the mermaid plugin claims, the code-block plugin claims as well, so their order decides. */
  lemma MermaidIsCode(n: Node)
    ensures Claims(MermaidPlugin, n) ==> Claims(CodeBlockPlugin, n)
  {
  }
}
