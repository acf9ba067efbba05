/**
 * The typing cursor of the Svelte binding: a copy of a node with the
 * cursor string added at its last place that can hold text. The search
 * walks the children from the last one backwards and descends into the
 * first that accepts; a node with children always accepts, appending a
 * text node holding the cursor when no child did; a node with a string
 * value gets the cursor appended to it; anything else refuses.
 */
module Cursor {

  import opened Types

  /** What `addToLast(n)` answers: it has children, or a string value. */
  predicate Accepts(n: Node) {
    (n.Parent? && |n.children| > 0) || n.value.Some?
  }

  /** The index of the last child that accepts, or -1 when none does. */
  function LastAccepting(cs: seq<Node>): (r: int)
    ensures -1 <= r < |cs|
    ensures r >= 0 ==> Accepts(cs[r])
    ensures forall j :: r < j < |cs| ==> !Accepts(cs[j])
  {
    if cs == [] then -1
    else if Accepts(cs[|cs| - 1]) then |cs| - 1
    else LastAccepting(cs[..|cs| - 1])
  }

  /** The node once the cursor is added at its last place that holds text. */
  function AddedCursor(n: Node, cursor: string): Node
    decreases n, 1
  {
    if n.Parent? && |n.children| > 0 then n.(children := AddedAll(n.children, cursor))
    else if n.value.Some? then n.(value := Some(n.value.value + cursor))
    else n
  }

  /** The children once the cursor is added to the last accepting one, or appended as a text node. */
  function AddedAll(cs: seq<Node>, cursor: string): seq<Node>
    decreases cs
  {
    var i := LastAccepting(cs);
    if i < 0 then cs + [TextNode(cursor)]
    else cs[..i] + [AddedCursor(cs[i], cursor)] + cs[i + 1..]
  }

  /** `-1` or the index `i` is the last accepting child exactly when it accepts and no later child does. */
  lemma {:induction false} LastAcceptingIs(cs: seq<Node>, i: int)
    requires -1 <= i < |cs|
    requires i >= 0 ==> Accepts(cs[i])
    requires forall j :: i < j < |cs| ==> !Accepts(cs[j])
    ensures LastAccepting(cs) == i
  {
    if cs != [] && i < |cs| - 1 {
      var init := cs[..|cs| - 1];
      assert forall j :: i < j < |init| ==> init[j] == cs[j];
      LastAcceptingIs(init, i);
    }
  }

  /**
   * `addToLast(n)`, on a value: whether the cursor found a place, and the
   * node with the cursor added there.
   */
  method AddToLast(n: Node, cursor: string) returns (accepted: bool, r: Node)
    ensures accepted == Accepts(n)
    ensures r == AddedCursor(n, cursor)
    decreases n
  {
    if n.Parent? && |n.children| > 0 {
      var cs := n.children;
      var i := |cs|;
      while i > 0
        invariant 0 <= i <= |cs|
        invariant forall j :: i <= j < |cs| ==> !Accepts(cs[j])
      {
        i := i - 1;
        var ok, c := AddToLast(cs[i], cursor);
        if ok {
          LastAcceptingIs(cs, i);
          return true, n.(children := cs[..i] + [c] + cs[i + 1..]);
        }
      }
      LastAcceptingIs(cs, -1);
      return true, n.(children := cs + [TextNode(cursor)]);
    }
    if n.kind == "text" && n.value.Some? {
      return true, n.(value := Some(n.value.value + cursor));
    }
    if n.value.Some? {
      return true, n.(value := Some(n.value.value + cursor));
    }
    return false, n;
  }

  /** `addCursorToNode(node, cursor)`: a copy of the node with the cursor added; the input is left as it was. */
  method AddCursorToNode(node: Node, cursor: string) returns (r: Node)
    ensures r == AddedCursor(node, cursor)
  {
    var cloned := node;
    var _, added := AddToLast(cloned, cursor);
    r := added;
  }

  // ---------------------------------------------------------------------
  // Properties
  // ---------------------------------------------------------------------

  /** The length of every string value in the tree, added up. */
  function Letters(n: Node): nat
    decreases n, 1
  {
    (if n.value.Some? then |n.value.value| else 0) + (if n.Parent? then LettersAll(n.children) else 0)
  }

  function LettersAll(cs: seq<Node>): nat
    decreases cs
  {
    if cs == [] then 0 else LettersAll(cs[..|cs| - 1]) + Letters(cs[|cs| - 1])
  }

  lemma {:induction false} LettersConcat(a: seq<Node>, b: seq<Node>)
    ensures LettersAll(a + b) == LettersAll(a) + LettersAll(b)
    decreases |b|
  {
    if b != [] {
      var b' := b[..|b| - 1];
      assert (a + b)[..|a + b| - 1] == a + b';
      assert (a + b)[|a + b| - 1] == b[|b| - 1];
      LettersConcat(a, b');
    } else {
      assert a + b == a;
    }
  }

  /**
   * The cursor is inserted exactly once where a node accepts: the string
   * values grow by the cursor's length. A node that refuses comes back as
   * it was.
   */
  lemma {:induction false} CursorInsertedOnce(n: Node, cursor: string)
    ensures Accepts(n) ==> Letters(AddedCursor(n, cursor)) == Letters(n) + |cursor|
    ensures !Accepts(n) ==> AddedCursor(n, cursor) == n
    decreases n, 1
  {
    if n.Parent? && |n.children| > 0 {
      CursorInsertedOnceAll(n.children, cursor);
    }
  }

  /** Adding the cursor to a non-empty list of children grows their string values by the cursor's length. */
  lemma {:induction false} CursorInsertedOnceAll(cs: seq<Node>, cursor: string)
    ensures LettersAll(AddedAll(cs, cursor)) == LettersAll(cs) + |cursor|
    decreases cs
  {
    var i := LastAccepting(cs);
    if i < 0 {
      LettersConcat(cs, [TextNode(cursor)]);
      assert [TextNode(cursor)][..0] == [];
    } else {
      CursorInsertedOnce(cs[i], cursor);
      var c := AddedCursor(cs[i], cursor);
      assert cs == cs[..i] + [cs[i]] + cs[i + 1..];
      LettersConcat(cs[..i] + [cs[i]], cs[i + 1..]);
      LettersConcat(cs[..i], [cs[i]]);
      LettersConcat(cs[..i] + [c], cs[i + 1..]);
      LettersConcat(cs[..i], [c]);
      assert [cs[i]][..0] == [] && [c][..0] == [];
    }
  }

  /**
   * The children are searched from the last one backwards: those after the
   * accepting child and those before it are kept as they were; with no
   * accepting child, a text node holding the cursor is appended.
   */
  lemma CursorPlacement(cs: seq<Node>, cursor: string)
    ensures var i := LastAccepting(cs); var r := AddedAll(cs, cursor);
      if i < 0 then
        && (forall j :: 0 <= j < |cs| ==> !Accepts(cs[j]))
        && r == cs + [TextNode(cursor)]
      else
        && |r| == |cs|
        && (forall j :: i < j < |cs| ==> !Accepts(cs[j]) && r[j] == cs[j])
        && (forall j :: 0 <= j < i ==> r[j] == cs[j])
        && r[i] == AddedCursor(cs[i], cursor) && Accepts(cs[i])
  {
  }

  /** A node with neither children nor a string value comes back unchanged. */
  lemma BareNodeUnchanged(n: Node, cursor: string)
    requires (n.Leaf? || n.children == []) && n.value.None?
    ensures AddedCursor(n, cursor) == n
  {
  }

  /** A node with a string value and no children gets the cursor at the end of that value. */
  lemma ValueGetsCursor(n: Node, cursor: string)
    requires (n.Leaf? || n.children == []) && n.value.Some?
    ensures AddedCursor(n, cursor).value == Some(n.value.value + cursor)
    ensures AddedCursor(n, cursor) == n.(value := Some(n.value.value + cursor))
  {
  }
}
