/**
 * The blocks the parser hands out: ids `block-N` from a counter, and the
 * conversion of the children of a parsed root into blocks with offsets and
 * raw text (`nodesToBlocks`), stated as a function over the node list.
 */
module Blocks {

  import opened Text
  import opened Types

  // ---------------------------------------------------------------------
  // Block ids and numbering
  // ---------------------------------------------------------------------

  /** The id of the `n`-th generated block: `block-${n}`. */
  function BlockId(n: nat): (id: string)
    ensures |id| > 6 && id[..6] == "block-"
  {
    "block-" + NatToString(n)
  }

  /** Distinct counter values give distinct ids. */
  lemma BlockIdInjective(a: nat, b: nat)
    requires BlockId(a) == BlockId(b)
    ensures a == b
  {
    assert NatToString(a) == BlockId(a)[6..];
    assert NatToString(b) == BlockId(b)[6..];
    NatToStringInjective(a, b);
  }

  /** Block `i` carries the id numbered `nums[i]` and the given status. */
  predicate Numbered(blocks: seq<ParsedBlock>, nums: seq<nat>, status: BlockStatus) {
    |blocks| == |nums|
    && forall i :: 0 <= i < |blocks| ==> blocks[i].id == BlockId(nums[i]) && blocks[i].status == status
  }

  predicate Increasing(nums: seq<nat>) {
    forall i, j :: 0 <= i < j < |nums| ==> nums[i] < nums[j]
  }

  /** Every number was handed out by a counter that has reached `hi`. */
  predicate Within(nums: seq<nat>, hi: nat) {
    forall i :: 0 <= i < |nums| ==> 1 <= nums[i] <= hi
  }

  /** The numbers `lo + 1` .. `lo + k`, handed out by `k` increments of a counter at `lo`. */
  function Range(lo: nat, k: nat): (r: seq<nat>)
    ensures |r| == k
    ensures forall i :: 0 <= i < k ==> r[i] == lo + 1 + i
  {
    seq(k, i requires 0 <= i < k => lo + 1 + i)
  }

  lemma NumbersPrefix(a: seq<nat>, b: seq<nat>, hi: nat)
    requires Increasing(a + b) && Within(a + b, hi)
    ensures Increasing(a) && Within(a, hi)
  {
    assert forall i :: 0 <= i < |a| ==> a[i] == (a + b)[i];
  }

  /** Numbers handed out after all earlier ones keep the sequence increasing. */
  lemma NumbersExtend(a: seq<nat>, lo: nat, k: nat)
    requires Increasing(a) && Within(a, lo)
    ensures Increasing(a + Range(lo, k)) && Within(a + Range(lo, k), lo + k)
  {
  }

  lemma NumberedConcat(a: seq<ParsedBlock>, na: seq<nat>, b: seq<ParsedBlock>, nb: seq<nat>, status: BlockStatus)
    requires Numbered(a, na, status) && Numbered(b, nb, status)
    ensures Numbered(a + b, na + nb, status)
  {
  }

  /** Blocks numbered by an increasing sequence have pairwise distinct ids. */
  lemma NumberedDistinct(blocks: seq<ParsedBlock>, nums: seq<nat>, status: BlockStatus)
    requires Numbered(blocks, nums, status) && Increasing(nums)
    ensures forall i, j :: 0 <= i < j < |blocks| ==> blocks[i].id != blocks[j].id
  {
    forall i, j | 0 <= i < j < |blocks|
      ensures blocks[i].id != blocks[j].id
    {
      if blocks[i].id == blocks[j].id {
        BlockIdInjective(nums[i], nums[j]);
      }
    }
  }

  // ---------------------------------------------------------------------
  // From AST nodes to blocks
  // ---------------------------------------------------------------------

  /** JavaScript's `String.prototype.substring`: both ends clamped to the string, swapped when reversed. */
  function Substring(s: string, a: int, b: int): (r: string)
    ensures 0 <= a <= b <= |s| ==> r == s[a..b]
    ensures |r| <= |s|
  {
    var x := if a < 0 then 0 else if a > |s| then |s| else a;
    var y := if b < 0 then 0 else if b > |s| then |s| else b;
    if x <= y then s[x..y] else s[y..x]
  }

  /** The order of the two ends does not matter. */
  lemma SubstringSwap(s: string, a: int, b: int)
    ensures Substring(s, a, b) == Substring(s, b, a)
  {
  }

  /**
   * `node.position?.start?.offset ?? current`, with `shift` added to a
   * position the grammar engine reports. The engine counts from the start of
   * the text it was given; `shift` is 0 as the code is written, and the
   * offset of that text in the document in the corrected reading.
   */
  function StartOf(n: Node, current: int, shift: int): int
  {
    if n.position.Some? && n.position.value.startOffset.Some? then n.position.value.startOffset.value + shift else current
  }

  /** `node.position?.end?.offset ?? current + 1`, with `shift` added to a reported position. */
  function EndOf(n: Node, current: int, shift: int): int
  {
    if n.position.Some? && n.position.value.endOffset.Some? then n.position.value.endOffset.value + shift else current + 1
  }

  /**
   * When a block's offsets, taken relative to `base`, lie inside `raw`, its
   * raw text is exactly that piece of `raw`.
   */
  predicate RawTextAgrees(b: ParsedBlock, base: int, raw: string) {
    0 <= b.startOffset - base <= b.endOffset - base <= |raw| ==> b.rawText == raw[b.startOffset - base..b.endOffset - base]
  }

  /** The offset `nodesToBlocks` has reached before node `i`: `current`, then the end of each node in turn. */
  function Cursor(nodes: seq<Node>, current: int, shift: int, i: nat): int
    requires i <= |nodes|
  {
    if i == 0 then current else EndOf(nodes[i - 1], Cursor(nodes, current, shift, i - 1), shift)
  }

  /**
   * The block for node `n` when the running offset is `current` and the
   * counter has just reached `id`: its offsets are the node's position
   * moved by `shift`, its raw text the piece of `raw` (which starts at
   * `base`) between them.
   */
  function BlockAt(n: Node, current: int, shift: int, base: int, raw: string, status: BlockStatus, id: nat): ParsedBlock
  {
    var s, e := StartOf(n, current, shift), EndOf(n, current, shift);
    ParsedBlock(BlockId(id), status, n, s, e, Substring(raw, s - base, e - base))
  }

  /**
   * The blocks `nodesToBlocks` makes of `nodes`, the running offset
   * starting at `current`, positions moved by `shift`, offsets relative to
   * `base` within `raw`, and the id counter standing at `counter`: one node
   * at a time, as its loop does.
   */
  function BlocksFrom(nodes: seq<Node>, current: int, shift: int, base: int, raw: string, status: BlockStatus, counter: nat)
    : (r: seq<ParsedBlock>)
    ensures |r| == |nodes|
  {
    if nodes == [] then []
    else
      [BlockAt(nodes[0], current, shift, base, raw, status, counter + 1)]
      + BlocksFrom(nodes[1..], EndOf(nodes[0], current, shift), shift, base, raw, status, counter + 1)
  }

  /** The same blocks in closed form: block `i` sits at the cursor before node `i` and takes the `i`-th next id. */
  ghost function BlocksClosed(nodes: seq<Node>, current: int, shift: int, base: int, raw: string, status: BlockStatus, counter: nat)
    : (r: seq<ParsedBlock>)
    ensures |r| == |nodes|
  {
    seq(|nodes|, i requires 0 <= i < |nodes| => BlockAt(nodes[i], Cursor(nodes, current, shift, i), shift, base, raw, status, counter + 1 + i))
  }

  /** The closed form grows one block at a time. */
  lemma ClosedPrefixStep(nodes: seq<Node>, current: int, shift: int, base: int, raw: string, status: BlockStatus, counter: nat, k: nat)
    requires k < |nodes|
    ensures var spec := BlocksClosed(nodes, current, shift, base, raw, status, counter);
      spec[..k + 1] == spec[..k] + [BlockAt(nodes[k], Cursor(nodes, current, shift, k), shift, base, raw, status, counter + 1 + k)]
  {
    var spec := BlocksClosed(nodes, current, shift, base, raw, status, counter);
    assert spec[k] == BlockAt(nodes[k], Cursor(nodes, current, shift, k), shift, base, raw, status, counter + 1 + k);
    assert spec[..k + 1] == spec[..k] + [spec[k]];
  }

  /** Dropping the first node moves the cursor's start to that node's end. */
  lemma {:induction false} CursorShift(nodes: seq<Node>, current: int, shift: int, i: nat)
    requires 1 <= i <= |nodes|
    ensures Cursor(nodes[1..], EndOf(nodes[0], current, shift), shift, i - 1) == Cursor(nodes, current, shift, i)
    decreases i
  {
    if i > 1 {
      CursorShift(nodes, current, shift, i - 1);
      assert nodes[1..][i - 2] == nodes[i - 1];
    }
  }

  /** Block `i` of the closed form is block `i - 1` of the closed form of the nodes after the first. */
  lemma ClosedShift(nodes: seq<Node>, current: int, shift: int, base: int, raw: string, status: BlockStatus, counter: nat, i: nat)
    requires 1 <= i < |nodes|
    ensures BlocksClosed(nodes[1..], EndOf(nodes[0], current, shift), shift, base, raw, status, counter + 1)[i - 1]
         == BlocksClosed(nodes, current, shift, base, raw, status, counter)[i]
  {
    CursorShift(nodes, current, shift, i);
    assert nodes[1..][i - 1] == nodes[i];
  }

  /** The node-by-node definition agrees with the closed form. */
  lemma {:induction false} BlocksFromClosed(nodes: seq<Node>, current: int, shift: int, base: int, raw: string, status: BlockStatus, counter: nat)
    ensures BlocksFrom(nodes, current, shift, base, raw, status, counter) == BlocksClosed(nodes, current, shift, base, raw, status, counter)
    decreases |nodes|
  {
    if nodes != [] {
      var rest, next := nodes[1..], EndOf(nodes[0], current, shift);
      BlocksFromClosed(rest, next, shift, base, raw, status, counter + 1);
      var l := BlocksFrom(nodes, current, shift, base, raw, status, counter);
      var c := BlocksClosed(nodes, current, shift, base, raw, status, counter);
      var tail := BlocksClosed(rest, next, shift, base, raw, status, counter + 1);
      assert l == [BlockAt(nodes[0], current, shift, base, raw, status, counter + 1)] + tail;
      forall i | 0 <= i < |nodes|
        ensures l[i] == c[i]
      {
        if i > 0 {
          ClosedShift(nodes, current, shift, base, raw, status, counter, i);
          assert l[i] == tail[i - 1];
        }
      }
    }
  }

  /** The offset reached before block `i` of `r`: the start, then the previous block's end. */
  function OffsetBefore(r: seq<ParsedBlock>, current: int, i: nat): int
    requires i <= |r|
  {
    if i == 0 then current else r[i - 1].endOffset
  }

  /** Block `i` holds node `i`, the status, the `i`-th id after the counter, and the offsets around the cursor before it. */
  lemma BlockFields(nodes: seq<Node>, current: int, shift: int, base: int, raw: string, status: BlockStatus, counter: nat, i: nat)
    requires i < |nodes|
    ensures var r := BlocksFrom(nodes, current, shift, base, raw, status, counter);
      && r[i] == BlockAt(nodes[i], Cursor(nodes, current, shift, i), shift, base, raw, status, counter + 1 + i)
      && r[i].id == BlockId(counter + 1 + i) && r[i].status == status && r[i].node == nodes[i]
      && r[i].startOffset == StartOf(nodes[i], Cursor(nodes, current, shift, i), shift)
      && r[i].endOffset == EndOf(nodes[i], Cursor(nodes, current, shift, i), shift)
  {
    BlocksFromClosed(nodes, current, shift, base, raw, status, counter);
  }

  /** Block `i`'s raw text is the piece of `raw` its offsets delimit, whenever they lie inside it. */
  lemma BlockText(nodes: seq<Node>, current: int, shift: int, base: int, raw: string, status: BlockStatus, counter: nat, i: nat)
    requires i < |nodes|
    ensures RawTextAgrees(BlocksFrom(nodes, current, shift, base, raw, status, counter)[i], base, raw)
  {
    BlockFields(nodes, current, shift, base, raw, status, counter, i);
    BlockAtText(nodes[i], Cursor(nodes, current, shift, i), shift, base, raw, status, counter + 1 + i);
  }

  /** A single block's raw text is the piece of `raw` its offsets delimit. */
  lemma BlockAtText(n: Node, current: int, shift: int, base: int, raw: string, status: BlockStatus, id: nat)
    ensures RawTextAgrees(BlockAt(n, current, shift, base, raw, status, id), base, raw)
  {
  }

  /** A node spanning `[s, e)` of the text the grammar engine was given. */
  predicate Spans(n: Node, s: int, e: int) {
    n.position == Some(Position(Some(s), Some(e)))
  }

  /**
   * As written, a block of text parsed at a positive document offset is
   * cut in the wrong place: `"abc"` parsed at offset 5, with one node
   * spanning all of it, yields the offsets 0 and 3 and an empty raw text.
   */
  lemma RawTextMisCut()
    ensures var n := Leaf("paragraph", None, None, Some(Position(Some(0), Some(3))));
      var b := BlocksFrom([n], 5, 0, 5, "abc", Stable, 0)[0];
      && Spans(n, 0, |"abc"|)
      && b.startOffset == 0 && b.endOffset == 3
      && b.rawText == "" != "abc"
  {
    var n := Leaf("paragraph", None, None, Some(Position(Some(0), Some(3))));
    assert BlocksFrom([n], 5, 0, 5, "abc", Stable, 0)[0] == BlockAt(n, 5, 0, 5, "abc", Stable, 1);
    assert Substring("abc", -5, -2) == "";
  }

  /**
   * Corrected, with positions moved by the offset `base` of the parsed text
   * in the document: a node spanning `[s, e)` of that text becomes a block
   * whose offsets delimit the same characters in the document, and whose
   * raw text is exactly those characters.
   */
  lemma ShiftedBlockInDocument(doc: string, nodes: seq<Node>, current: int, base: int, raw: string,
                               status: BlockStatus, counter: nat, i: nat, s: int, e: int)
    requires 0 <= base && base + |raw| <= |doc| && doc[base..base + |raw|] == raw
    requires i < |nodes| && Spans(nodes[i], s, e) && 0 <= s <= e <= |raw|
    ensures var b := BlocksFrom(nodes, current, base, base, raw, status, counter)[i];
      && b.startOffset == base + s && b.endOffset == base + e
      && b.rawText == raw[s..e] == doc[b.startOffset..b.endOffset]
  {
    BlockFields(nodes, current, base, base, raw, status, counter, i);
    var b := BlocksFrom(nodes, current, base, base, raw, status, counter)[i];
    var c := Cursor(nodes, current, base, i);
    assert b.startOffset == StartOf(nodes[i], c, base) == base + s;
    assert b.endOffset == EndOf(nodes[i], c, base) == base + e;
    assert b.rawText == Substring(raw, s, e) == raw[s..e];
    PieceOfDocument(doc, base, raw, s, e);
  }

  /** A piece of a text that sits at `base` in a document is the same piece of the document, moved by `base`. */
  lemma PieceOfDocument(doc: string, base: int, raw: string, s: int, e: int)
    requires 0 <= base && base + |raw| <= |doc| && doc[base..base + |raw|] == raw && 0 <= s <= e <= |raw|
    ensures raw[s..e] == doc[base + s..base + e]
  {
    var w, v := raw[s..e], doc[base + s..base + e];
    assert |w| == |v|;
    forall k | 0 <= k < |w|
      ensures w[k] == v[k]
    {
      assert w[k] == raw[s + k] == doc[base..base + |raw|][s + k];
    }
  }

  /**
   * A node without a position continues from where the previous block
   * ended: start there, end one character further.
   */
  lemma BlockContinues(nodes: seq<Node>, current: int, shift: int, base: int, raw: string, status: BlockStatus, counter: nat, i: nat)
    requires i < |nodes|
    ensures var r := BlocksFrom(nodes, current, shift, base, raw, status, counter);
      && r[i].startOffset == StartOf(nodes[i], OffsetBefore(r, current, i), shift)
      && r[i].endOffset == EndOf(nodes[i], OffsetBefore(r, current, i), shift)
  {
    var r := BlocksFrom(nodes, current, shift, base, raw, status, counter);
    var c := Cursor(nodes, current, shift, i);
    assert r[i].startOffset == StartOf(nodes[i], c, shift) && r[i].endOffset == EndOf(nodes[i], c, shift) by {
      BlockFields(nodes, current, shift, base, raw, status, counter, i);
    }
    assert OffsetBefore(r, current, i) == c by {
      if i > 0 {
        BlockFields(nodes, current, shift, base, raw, status, counter, i - 1);
      }
    }
  }

  /** The blocks carry the ids of the next `|nodes|` counter values, in order, and the status. */
  lemma BlocksFromNumbered(nodes: seq<Node>, current: int, shift: int, base: int, raw: string, status: BlockStatus, counter: nat)
    ensures Numbered(BlocksFrom(nodes, current, shift, base, raw, status, counter), Range(counter, |nodes|), status)
  {
    forall i | 0 <= i < |nodes|
      ensures BlocksFrom(nodes, current, shift, base, raw, status, counter)[i].id == BlockId(counter + 1 + i)
      ensures BlocksFrom(nodes, current, shift, base, raw, status, counter)[i].status == status
    {
      BlockFields(nodes, current, shift, base, raw, status, counter, i);
    }
  }
}
