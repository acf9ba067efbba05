/**
 * Character counting and truncation of Markdown AST nodes, the default
 * behaviour of the progressive-reveal engine: `countChars` walks a node
 * adding up the lengths of its string values, and `sliceAst` keeps only the
 * first `maxChars` characters, spending one unit on every node that has
 * neither a string value nor children.
 *
 * Both walk the tree recursively while a shared counter (`count`,
 * `remaining`) changes as they go; here they are recursive methods with a
 * loop over the children, each proved equal to a recursive specification
 * function (`Chars`, `Process`). The properties are lemmas about those
 * functions.
 */
module AstUtils {

  import opened Types

  // ---------------------------------------------------------------------
  // Specification functions
  // ---------------------------------------------------------------------

  /** The characters `countChars` credits to `n`: its value's length, or else the sum over its children. */
  function Chars(n: Node): nat
    decreases n, 1
  {
    if HasText(n) then |n.value.value|
    else if n.Parent? then CharsAll(n.children)
    else 0
  }

  /** The characters of a list of siblings, added up left to right. */
  function CharsAll(cs: seq<Node>): nat
    decreases cs
  {
    if cs == [] then 0 else CharsAll(cs[..|cs| - 1]) + Chars(cs[|cs| - 1])
  }

  /** The text a node shows: its non-empty value, or else its children's text in order. */
  function Text(n: Node): string
    decreases n, 1
  {
    if HasText(n) then n.value.value
    else if n.Parent? then TextAll(n.children)
    else ""
  }

  function TextAll(cs: seq<Node>): string
    decreases cs
  {
    if cs == [] then "" else TextAll(cs[..|cs| - 1]) + Text(cs[|cs| - 1])
  }

  function OptText(r: Option<Node>): string {
    if r.Some? then Text(r.value) else ""
  }

  /**
   * The inner `process` of `sliceAst` on `n` when `remaining` units are
   * left: the truncated node (`None` for null) and the units left after it.
   */
  function Process(n: Node, remaining: int): (Option<Node>, int)
    decreases n, 1
  {
    if remaining <= 0 then (None, remaining)
    else if HasText(n) then
      var v := n.value.value;
      var take := if |v| < remaining then |v| else remaining;
      if take == 0 then (None, remaining - take)
      else (Some(n.(value := Some(v[..take]))), remaining - take)
    else if n.Parent? then
      var (kept, rest) := ProcessAll(n.children, remaining);
      if kept == [] then (None, rest) else (Some(n.(children := kept)), rest)
    else (Some(n), remaining - 1)
  }

  /**
   * The loop over the children in `process`: stop once nothing is left,
   * keep every child that did not come back null.
   */
  function ProcessAll(cs: seq<Node>, remaining: int): (seq<Node>, int)
    decreases cs
  {
    if cs == [] then ([], remaining)
    else
      var (kept, rest) := ProcessAll(cs[..|cs| - 1], remaining);
      if rest <= 0 then (kept, rest)
      else
        var (p, after) := Process(cs[|cs| - 1], rest);
        (if p.Some? then kept + [p.value] else kept, after)
  }

  /** `sliceAst(node, maxChars)`: null for a non-positive budget, else the processed node. */
  function SliceAst(node: Node, maxChars: int): Option<Node> {
    if maxChars <= 0 then None else Process(node, maxChars).0
  }

  // ---------------------------------------------------------------------
  // The walks as the source performs them
  // ---------------------------------------------------------------------

  /** `countChars(node)` */
  method CountChars(node: Node) returns (count: nat)
    ensures count == Chars(node)
  {
    count := Traverse(node, 0);
  }

  /** `traverse(n)`: adds the characters of `n` to the running count. */
  method Traverse(n: Node, count0: nat) returns (count: nat)
    ensures count == count0 + Chars(n)
    decreases n
  {
    if HasText(n) {
      return count0 + |n.value.value|;
    }
    count := count0;
    if n.Parent? {
      var cs := n.children;
      for i := 0 to |cs|
        invariant count == count0 + CharsAll(cs[..i])
      {
        count := Traverse(cs[i], count);
        assert cs[..i + 1][..i] == cs[..i];
      }
      assert cs[..|cs|] == cs;
    }
  }

  /** `sliceAst(node, maxChars)` */
  method Slice(node: Node, maxChars: int) returns (r: Option<Node>)
    ensures r == SliceAst(node, maxChars)
    ensures maxChars <= 0 ==> r.None?
  {
    if maxChars <= 0 {
      return None;
    }
    var remaining;
    r, remaining := ProcessNode(node, maxChars);
  }

  /** `process(n)`, with the shared `remaining` passed in and handed back. */
  method ProcessNode(n: Node, remaining0: int) returns (r: Option<Node>, remaining: int)
    ensures (r, remaining) == Process(n, remaining0)
    decreases n
  {
    remaining := remaining0;
    if remaining <= 0 {
      return None, remaining;
    }
    if HasText(n) {
      var v := n.value.value;
      var take := if |v| < remaining then |v| else remaining;
      remaining := remaining - take;
      if take == 0 {
        return None, remaining;
      }
      return Some(n.(value := Some(v[..take]))), remaining;
    }
    if n.Parent? {
      var cs := n.children;
      var newChildren := [];
      var i := 0;
      while i < |cs|
        invariant 0 <= i <= |cs|
        invariant (newChildren, remaining) == ProcessAll(cs[..i], remaining0)
      {
        if remaining <= 0 {
          break;
        }
        assert cs[..i + 1][..i] == cs[..i];
        var processed;
        processed, remaining := ProcessNode(cs[i], remaining);
        if processed.Some? {
          newChildren := newChildren + [processed.value];
        }
        i := i + 1;
      }
      assert ProcessAll(cs, remaining0) == (newChildren, remaining) by {
        if i < |cs| {
          SkipAfterBudget(cs, i, remaining0);
        } else {
          assert cs[..i] == cs;
        }
      }
      if newChildren == [] {
        return None, remaining;
      }
      return Some(n.(children := newChildren)), remaining;
    }
    remaining := remaining - 1;
    r := Some(n);
  }

  /** Once the budget is spent after `i` children, the remaining children change nothing. */
  lemma {:induction false} SkipAfterBudget(cs: seq<Node>, i: nat, remaining: int)
    requires i <= |cs| && ProcessAll(cs[..i], remaining).1 <= 0
    ensures ProcessAll(cs, remaining) == ProcessAll(cs[..i], remaining)
    decreases |cs| - i
  {
    if i < |cs| {
      assert cs[..i + 1][..i] == cs[..i];
      SkipAfterBudget(cs, i + 1, remaining);
    } else {
      assert cs[..i] == cs;
    }
  }

  // ---------------------------------------------------------------------
  // Properties
  // ---------------------------------------------------------------------

  /** Every node without a non-empty value is a container whose children are all like that too: no bare leaves. */
  predicate NoBareLeaf(n: Node)
    decreases n, 1
  {
    HasText(n) || (n.Parent? && NoBareLeafAll(n.children))
  }

  predicate NoBareLeafAll(cs: seq<Node>)
    decreases cs
  {
    cs == [] || (NoBareLeafAll(cs[..|cs| - 1]) && NoBareLeaf(cs[|cs| - 1]))
  }

  /** The count of a node is the length of the text it shows. */
  lemma {:induction false} TextLength(n: Node)
    ensures |Text(n)| == Chars(n)
    decreases n, 1
  {
    if !HasText(n) && n.Parent? {
      TextLengthAll(n.children);
    }
  }

  lemma {:induction false} TextLengthAll(cs: seq<Node>)
    ensures |TextAll(cs)| == CharsAll(cs)
    decreases cs
  {
    if cs != [] {
      TextLengthAll(cs[..|cs| - 1]);
      TextLength(cs[|cs| - 1]);
    }
  }

  /** What a budget of `remaining` units buys out of `total` characters. */
  function Spent(remaining: int, total: nat): nat {
    if remaining <= 0 then 0 else if remaining < total then remaining else total
  }

  /**
   * On a tree without bare leaves, truncating with a budget shows exactly
   * the first `Spent(remaining, Chars(n))` characters of its text and uses
   * up exactly that many units.
   */
  lemma {:induction false} ProcessPrefix(n: Node, remaining: int)
    requires NoBareLeaf(n)
    ensures var t := Spent(remaining, Chars(n));
      && Process(n, remaining).1 == remaining - t
      && t <= |Text(n)|
      && OptText(Process(n, remaining).0) == Text(n)[..t]
    decreases n, 1
  {
    TextLength(n);
    if remaining > 0 && !HasText(n) {
      ProcessPrefixAll(n.children, remaining);
    }
  }

  lemma {:induction false} ProcessPrefixAll(cs: seq<Node>, remaining: int)
    requires NoBareLeafAll(cs)
    ensures var t := Spent(remaining, CharsAll(cs));
      && ProcessAll(cs, remaining).1 == remaining - t
      && t <= |TextAll(cs)|
      && TextAll(ProcessAll(cs, remaining).0) == TextAll(cs)[..t]
    decreases cs
  {
    TextLengthAll(cs);
    if cs != [] {
      var init, last := cs[..|cs| - 1], cs[|cs| - 1];
      ProcessPrefixAll(init, remaining);
      TextLengthAll(init);
      var (kept, rest) := ProcessAll(init, remaining);
      if rest > 0 {
        ProcessPrefix(last, rest);
        TextLength(last);
        var (p, after) := Process(last, rest);
        var kept' := if p.Some? then kept + [p.value] else kept;
        if p.Some? {
          assert kept'[..|kept'| - 1] == kept;
        }
        assert TextAll(kept') == TextAll(kept) + OptText(p);
      }
    }
  }

  /**
   * The text-prefix property of `sliceAst`: on a tree whose leaves all
   * carry non-empty strings, the text of `sliceAst(n, k)` is the first
   * `min(k, countChars(n))` characters of the text of `n` (none for k <= 0).
   */
  lemma SliceIsPrefix(n: Node, k: int)
    requires NoBareLeaf(n)
    ensures Spent(k, Chars(n)) <= |Text(n)| && OptText(SliceAst(n, k)) == Text(n)[..Spent(k, Chars(n))]
  {
    ProcessPrefix(n, k);
  }

  /** With a budget of at least `countChars(n)`, the whole text is shown. */
  lemma SliceAllText(n: Node, k: int)
    requires NoBareLeaf(n) && k >= Chars(n)
    ensures OptText(SliceAst(n, k)) == Text(n)
  {
    SliceIsPrefix(n, k);
    TextLength(n);
  }

  /**
   * A container without a value of its own either disappears or keeps at
   * least one child: it is never returned empty, and it keeps no more
   * children than it had.
   */
  lemma ContainerNeverEmpty(n: Node, remaining: int)
    requires n.Parent? && !HasText(n)
    ensures var r := Process(n, remaining).0;
      r.Some? ==> (r.value.Parent? && 0 < |r.value.children| <= |n.children| && r.value == n.(children := r.value.children))
  {
    KeptAtMost(n.children, remaining);
  }

  lemma {:induction false} KeptAtMost(cs: seq<Node>, remaining: int)
    ensures |ProcessAll(cs, remaining).0| <= |cs|
    decreases cs
  {
    if cs != [] {
      KeptAtMost(cs[..|cs| - 1], remaining);
    }
  }

  /**
   * A node with neither a non-empty value nor children counts 0 characters
   * but costs one unit of the budget, and is kept whole.
   */
  lemma BareLeafCostsOne(n: Node, remaining: int)
    requires !HasText(n) && (n.Leaf? || n.children == [])
    ensures Chars(n) == 0
    ensures n.Leaf? && remaining > 0 ==> Process(n, remaining) == (Some(n), remaining - 1)
    ensures n.Parent? ==> Process(n, remaining) == (None, remaining)
  {
  }

  /**
   * The two disagree: a paragraph holding "ab" and then an image counts 2
   * characters, yet a budget of 2 shows "ab" without the image.
   */
  lemma BareLeafNotShownAtTotal()
    ensures var image := Leaf("image", None, None, None);
      var para := Parent("paragraph", None, [TextNode("ab"), image], None, None);
      && Chars(para) == 2
      && SliceAst(para, 2) == Some(para.(children := [TextNode("ab")]))
  {
    var text, image := TextNode("ab"), Leaf("image", None, None, None);
    var cs := [text, image];
    assert cs[..|cs| - 1] == [text];
    assert [text][..0] == [];
    assert CharsAll([text]) == 2;
    assert "ab"[..2] == "ab";
    assert Process(text, 2) == (Some(text), 0);
    var one := [text];
    assert one[..|one| - 1] == [];
    assert ProcessAll([], 2) == ([], 2);
    assert ProcessAll(one, 2) == ([] + [text], 0);
    assert [] + [text] == one;
    assert ProcessAll(cs, 2) == (one, 0);
    var para := Parent("paragraph", None, cs, None, None);
    assert Chars(image) == 0;
    assert CharsAll(cs) == 2;
    assert Process(para, 2) == (Some(para.(children := one)), 0);
  }
}
