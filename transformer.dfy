/**
 * The block transformer: a first-in first-out queue that reveals blocks
 * one at a time, a few characters per tick, between the parser and the
 * renderer. Its state is the completed blocks, the block being revealed
 * with how much of it is shown, and the blocks still waiting; flags say
 * whether a frame is scheduled, whether it is running and whether it is
 * paused. Plugins may override how nodes are counted and truncated, the
 * first matching plugin that answers winning.
 */
module Transformer {

  import opened Types
  import AstUtils
  import opened Plugins

  // ---------------------------------------------------------------------
  // State and options
  // ---------------------------------------------------------------------

  /** `charsPerTick`: a fixed step, or a random step drawn from `[min, max]`. */
  datatype TickStep = Fixed(count: int) | Between(min: int, max: int)

  datatype TransformerState<T> = TransformerState(
    completedBlocks: seq<SourceBlock<T>>,
    currentBlock: Option<SourceBlock<T>>,
    currentProgress: int,
    pendingBlocks: seq<SourceBlock<T>>)

  function EmptyState<T>(): TransformerState<T> {
    TransformerState([], None, 0, [])
  }

  /** The current block, if any, as a sequence of at most one block. */
  function CurrentSeq<T>(s: TransformerState<T>): seq<SourceBlock<T>> {
    if s.currentBlock.Some? then [s.currentBlock.value] else []
  }

  /** The blocks not yet completed, in the order they will be revealed. */
  function Waiting<T>(s: TransformerState<T>): seq<SourceBlock<T>> {
    CurrentSeq(s) + s.pendingBlocks
  }

  /** Every block the transformer holds, completed ones first. */
  function AllBlocks<T>(s: TransformerState<T>): seq<SourceBlock<T>> {
    s.completedBlocks + Waiting(s)
  }

  function Ids<T>(bs: seq<SourceBlock<T>>): (r: seq<string>)
    ensures |r| == |bs| && forall i :: 0 <= i < |bs| ==> r[i] == bs[i].id
  {
    if bs == [] then [] else [bs[0].id] + Ids(bs[1..])
  }

  lemma {:induction false} IdsConcat<T>(a: seq<SourceBlock<T>>, b: seq<SourceBlock<T>>)
    ensures Ids(a + b) == Ids(a) + Ids(b)
  {
    assert |Ids(a + b)| == |Ids(a) + Ids(b)|;
    forall i | 0 <= i < |a + b|
      ensures Ids(a + b)[i] == (Ids(a) + Ids(b))[i]
    {
      if i < |a| {
        assert (a + b)[i] == a[i];
      } else {
        assert (a + b)[i] == b[i - |a|];
      }
    }
  }

  /** `blocks.filter(b => !existingIds.has(b.id))`: the blocks whose id is new, in input order. */
  function NewBlocks<T>(blocks: seq<SourceBlock<T>>, existing: seq<string>): (r: seq<SourceBlock<T>>)
    ensures forall i :: 0 <= i < |r| ==> r[i] in blocks && r[i].id !in existing
    ensures forall i :: 0 <= i < |blocks| && blocks[i].id !in existing ==> blocks[i] in r
    ensures |r| <= |blocks|
  {
    if blocks == [] then []
    else (if blocks[0].id in existing then [] else [blocks[0]]) + NewBlocks(blocks[1..], existing)
  }

  /** Filtering a concatenation filters each part: the new blocks keep their input order. */
  lemma {:induction false} NewBlocksConcat<T>(a: seq<SourceBlock<T>>, b: seq<SourceBlock<T>>, existing: seq<string>)
    ensures NewBlocks(a + b, existing) == NewBlocks(a, existing) + NewBlocks(b, existing)
  {
    if a == [] {
      assert a + b == b;
    } else {
      assert (a + b)[0] == a[0] && (a + b)[1..] == a[1..] + b;
      NewBlocksConcat(a[1..], b, existing);
    }
  }

  /** A single block is kept exactly when its id is new. */
  lemma NewBlocksSingle<T>(b: SourceBlock<T>, existing: seq<string>)
    ensures NewBlocks([b], existing) == if b.id in existing then [] else [b]
  {
    assert [b][1..] == [];
  }

  /** `blocks.find(b => b.id === id)`: the first block with that id. */
  function FindById<T>(blocks: seq<SourceBlock<T>>, id: string): (r: Option<SourceBlock<T>>)
    ensures r.Some? ==> r.value in blocks && r.value.id == id
    ensures r.Some? ==> exists i :: 0 <= i < |blocks| && blocks[i] == r.value && forall j :: 0 <= j < i ==> blocks[j].id != id
    ensures r.None? <==> forall i :: 0 <= i < |blocks| ==> blocks[i].id != id
  {
    if blocks == [] then None
    else if blocks[0].id == id then Some(blocks[0])
    else
      var rest := FindById(blocks[1..], id);
      assert rest.Some? ==> exists i :: 0 < i < |blocks| && blocks[i] == rest.value && forall j :: 0 <= j < i ==> blocks[j].id != id by {
        if rest.Some? {
          var k :| 0 <= k < |blocks[1..]| && blocks[1..][k] == rest.value && forall j :: 0 <= j < k ==> blocks[1..][j].id != id;
          assert blocks[k + 1] == rest.value;
          assert forall j :: 0 <= j < k + 1 ==> blocks[j].id != id by {
            forall j | 0 <= j < k + 1 ensures blocks[j].id != id {
              if j > 0 { assert blocks[j] == blocks[1..][j - 1]; }
            }
          }
        }
      }
      rest
  }

  /** The pushed block carrying the current block's id, if there is a current block and one carries it. */
  function Found<T>(s: TransformerState<T>, blocks: seq<SourceBlock<T>>): (r: Option<SourceBlock<T>>)
    ensures r.Some? ==> s.currentBlock.Some? && r.value in blocks && r.value.id == s.currentBlock.value.id
  {
    if s.currentBlock.Some? then FindById(blocks, s.currentBlock.value.id) else None
  }

  /** The state once `blocks` joined the queue and, when the animation may start, the head came up. */
  function Queued<T>(s: TransformerState<T>, blocks: seq<SourceBlock<T>>, start: bool): (r: TransformerState<T>)
    ensures Waiting(r) == Waiting(s) + blocks && r.completedBlocks == s.completedBlocks
    ensures s.currentBlock.Some? ==> r.currentBlock == s.currentBlock && r.currentProgress == s.currentProgress
  {
    var q := s.(pendingBlocks := s.pendingBlocks + blocks);
    assert Waiting(q) == Waiting(s) + blocks;
    PromoteKeepsQueue(q);
    if start then Promote(q) else q
  }

  /** When nothing is being revealed, the head of the queue becomes current with nothing shown. */
  function Promote<T>(s: TransformerState<T>): TransformerState<T> {
    if s.currentBlock.None? && s.pendingBlocks != [] then
      TransformerState(s.completedBlocks, Some(s.pendingBlocks[0]), 0, s.pendingBlocks[1..])
    else s
  }

  /** Promoting the head of the queue moves no block: the waiting order and the completed blocks stay. */
  lemma PromoteKeepsQueue<T>(s: TransformerState<T>)
    ensures Waiting(Promote(s)) == Waiting(s) && Promote(s).completedBlocks == s.completedBlocks
    ensures s.currentBlock.None? && s.pendingBlocks != [] ==> Promote(s).currentProgress == 0
    ensures Promote(s).currentBlock.None? <==> Waiting(s) == []
  {
    if s.currentBlock.None? && s.pendingBlocks != [] {
      assert s.pendingBlocks == [s.pendingBlocks[0]] + s.pendingBlocks[1..];
    }
  }

  /** Appending to the queue appends to the waiting blocks, and to every block held. */
  lemma AppendPending<T>(s: TransformerState<T>, bs: seq<SourceBlock<T>>)
    ensures Waiting(s.(pendingBlocks := s.pendingBlocks + bs)) == Waiting(s) + bs
    ensures Ids(AllBlocks(s.(pendingBlocks := s.pendingBlocks + bs))) == Ids(AllBlocks(s)) + Ids(bs)
  {
    var s' := s.(pendingBlocks := s.pendingBlocks + bs);
    calc {
      AllBlocks(s');
      s.completedBlocks + (CurrentSeq(s) + (s.pendingBlocks + bs));
      { assert CurrentSeq(s) + (s.pendingBlocks + bs) == Waiting(s) + bs; }
      s.completedBlocks + (Waiting(s) + bs);
      AllBlocks(s) + bs;
    }
    IdsConcat(AllBlocks(s), bs);
  }

  function Min(a: int, b: int): int {
    if a < b then a else b
  }

  /** The progress one tick leaves on a block of `total` characters. */
  function Advanced(progress: int, step: int, total: int): int {
    Min(progress + step, total)
  }

  /** The state after a tick on the current block with the given step and total. */
  function AfterTick<T>(s: TransformerState<T>, step: int, total: int): TransformerState<T>
    requires s.currentBlock.Some?
  {
    var p := Advanced(s.currentProgress, step, total);
    if p < total then s.(currentProgress := p)
    else Promote(TransformerState(s.completedBlocks + [s.currentBlock.value], None, 0, s.pendingBlocks))
  }

  /** The steps `getStep` may return: the fixed count, or `floor(random * (max - min + 1)) + min`. */
  predicate StepAllowed(c: TickStep, step: int) {
    match c
    case Fixed(n) => step == n
    case Between(lo, hi) => if lo <= hi then lo <= step <= hi else hi + 1 <= step <= lo
  }

  // ---------------------------------------------------------------------
  // Plugin dispatch
  // ---------------------------------------------------------------------

  /** `countChars` with plugins: the first claiming plugin whose hook answers a number, else the default count. */
  function PluginCount(ps: seq<Plugin>, n: Node): int {
    if ps == [] then AstUtils.Chars(n)
    else if Claims(ps[0], n) && HookCount(ps[0], n).Some? then HookCount(ps[0], n).value
    else PluginCount(ps[1..], n)
  }

  /** `sliceNode` with plugins: the first claiming plugin whose hook answers a node, else the default truncation. */
  function PluginSlice(ps: seq<Plugin>, n: Node, chars: int, total: int): Option<Node> {
    if ps == [] then AstUtils.SliceAst(n, chars)
    else if Claims(ps[0], n) && HookSlice(ps[0], n, chars, total).Some? then HookSlice(ps[0], n, chars, total)
    else PluginSlice(ps[1..], n, chars, total)
  }

  /** The block as displayed once complete. */
  function Shown<T>(b: SourceBlock<T>): DisplayBlock<T> {
    DisplayBlock(b.id, b.node, b.status, b.meta, b.node, 1.0, true)
  }

  /** `{ type: 'paragraph', children: [] }`, shown while nothing of the current block is. */
  const EmptyParagraph: Node := Parent("paragraph", None, [], None, None)

  /** The fraction of the current block shown: progress over total, or 1 for a block without characters. */
  function Fraction(progress: int, total: int): real {
    if total > 0 then (progress as real) / (total as real) else 1.0
  }

  // ---------------------------------------------------------------------
  // Properties of ticking and display
  // ---------------------------------------------------------------------

  /** The completed blocks are the oldest pushes: their ids begin the push order. */
  lemma CompletedLeadOrder<T>(s: TransformerState<T>, order: seq<string>)
    requires Ids(AllBlocks(s)) == order
    ensures Ids(s.completedBlocks) == order[..|s.completedBlocks|]
    ensures Ids(Waiting(s)) == order[|s.completedBlocks|..]
  {
    IdsConcat(s.completedBlocks, Waiting(s));
  }

  /**
   * One tick keeps every block in place: the held blocks are the same in
   * the same order; an unfinished block stays current with progress in
   * `[old progress, total)`; a finished one is appended to the completed
   * blocks and the next one starts from nothing.
   */
  lemma TickOutcome<T>(s: TransformerState<T>, step: int, total: int)
    requires s.currentBlock.Some? && 0 <= s.currentProgress && step >= 0
    ensures AllBlocks(AfterTick(s, step, total)) == AllBlocks(s)
    ensures var s' := AfterTick(s, step, total);
      if s.currentProgress + step < total then
        && s'.currentBlock == s.currentBlock
        && s.currentProgress <= s'.currentProgress < total
        && s'.completedBlocks == s.completedBlocks
      else
        && s'.completedBlocks == s.completedBlocks + [s.currentBlock.value]
        && s'.currentProgress == 0
        && (s'.currentBlock.Some? <==> s.pendingBlocks != [])
  {
    if s.currentProgress + step >= total {
      var done := TransformerState(s.completedBlocks + [s.currentBlock.value], None, 0, s.pendingBlocks);
      PromoteKeepsQueue(done);
      assert AllBlocks(done) == AllBlocks(s);
    }
  }

  /** The progress on a block after `k` ticks of a fixed step, starting from nothing. */
  function ProgressAfter(k: nat, step: int, total: int): int {
    if k == 0 then 0 else Advanced(ProgressAfter(k - 1, step, total), step, total)
  }

  /** Some tick among the first `k` finishes the block. */
  predicate CompletedWithin(k: nat, step: int, total: int) {
    k >= 1 && ProgressAfter(k, step, total) >= total
  }

  lemma {:induction false} ProgressAfterIsCapped(k: nat, step: int, total: int)
    requires step >= 0 && total >= 0
    ensures ProgressAfter(k, step, total) == Min(k * step, total)
  {
    if k > 0 {
      ProgressAfterIsCapped(k - 1, step, total);
      assert (k - 1) * step + step == k * step;
      if (k - 1) * step > total {
        assert k * step >= (k - 1) * step;
      }
    }
  }

  lemma ProductMonotone(a: int, b: int, step: int)
    requires a <= b && step >= 0
    ensures a * step <= b * step
  {
    assert b * step - a * step == (b - a) * step;
  }

  /** `c = ceil(T / s)` is the least multiplier of `s` reaching `T`. */
  lemma CeilBounds(total: int, step: int)
    requires step > 0 && total > 0
    ensures var c := (total + step - 1) / step; c * step >= total && (c - 1) * step < total
  {
    var c := (total + step - 1) / step;
    var r := (total + step - 1) % step;
    assert total + step - 1 == c * step + r && 0 <= r < step;
    assert (c - 1) * step == c * step - step;
  }

  /** A fixed step `s > 0` finishes a block of `T > 0` characters exactly at tick `ceil(T / s)`. */
  lemma TicksToComplete(k: nat, step: int, total: int)
    requires step > 0 && total > 0
    ensures CompletedWithin(k, step, total) <==> k >= (total + step - 1) / step
  {
    ProgressAfterIsCapped(k, step, total);
    var c := (total + step - 1) / step;
    CeilBounds(total, step);
    if k >= c {
      ProductMonotone(c, k, step);
    } else {
      ProductMonotone(k, c - 1, step);
    }
  }

  /** A block with no characters finishes at its first tick, whatever the non-negative step. */
  lemma EmptyBlockFirstTick(k: nat, step: int, total: int)
    requires step >= 0 && total <= 0
    ensures CompletedWithin(k, step, total) <==> k >= 1
  {
    if k >= 1 {
      ProgressAfterAtLeastTotal(k, step, total);
    }
  }

  /** A zero step never finishes a block with characters. */
  lemma ZeroStepStalls(k: nat, total: int)
    requires total > 0
    ensures !CompletedWithin(k, 0, total)
  {
    ProgressAfterIsCapped(k, 0, total);
  }

  lemma {:induction false} ProgressAfterAtLeastTotal(k: nat, step: int, total: int)
    requires k >= 1 && step >= 0 && total <= 0
    ensures ProgressAfter(k, step, total) == total
  {
    if k > 1 {
      ProgressAfterAtLeastTotal(k - 1, step, total);
    }
  }

  /** The shown fraction lies in `[0, 1]` while the progress lies in `[0, total]`, and is 1 at the total. */
  lemma FractionBounds(progress: int, total: int)
    requires 0 <= progress <= total || total <= 0
    ensures 0.0 <= Fraction(progress, total) <= 1.0
    ensures progress == total ==> Fraction(progress, total) == 1.0
    ensures total > 0 && progress < total ==> Fraction(progress, total) < 1.0
  {
    if total > 0 {
      var t := total as real;
      var f := (progress as real) / t;
      assert f * t == progress as real;
    }
  }

  // ---------------------------------------------------------------------
  // Properties of plugin dispatch
  // ---------------------------------------------------------------------

  /** A plugin in front decides when it claims the node and answers; one that does not claim it is passed over. */
  lemma FirstPluginWins(p: Plugin, ps: seq<Plugin>, n: Node, chars: int, total: int)
    ensures Claims(p, n) && HookCount(p, n).Some? ==> PluginCount([p] + ps, n) == HookCount(p, n).value
    ensures Claims(p, n) && HookSlice(p, n, chars, total).Some? ==>
      PluginSlice([p] + ps, n, chars, total) == HookSlice(p, n, chars, total)
    ensures !Claims(p, n) ==> PluginCount([p] + ps, n) == PluginCount(ps, n)
    ensures !Claims(p, n) ==> PluginSlice([p] + ps, n, chars, total) == PluginSlice(ps, n, chars, total)
  {
    assert ([p] + ps)[1..] == ps;
  }

  /** A node no plugin claims is counted and truncated the default way. */
  lemma {:induction false} UnclaimedIsDefault(ps: seq<Plugin>, n: Node, chars: int, total: int)
    requires forall i :: 0 <= i < |ps| ==> !Claims(ps[i], n)
    ensures PluginCount(ps, n) == AstUtils.Chars(n)
    ensures PluginSlice(ps, n, chars, total) == AstUtils.SliceAst(n, chars)
  {
    if ps != [] {
      UnclaimedIsDefault(ps[1..], n, chars, total);
    }
  }

  /** Without plugins, counting and truncation are the default ones. */
  lemma NoPluginsIsDefault(n: Node, chars: int, total: int)
    ensures PluginCount([], n) == AstUtils.Chars(n)
    ensures PluginSlice([], n, chars, total) == AstUtils.SliceAst(n, chars)
  {
  }

  /**
   * With every built-in plugin: a mermaid diagram counts one character and
   * appears whole from the first tick, while other code counts one and
   * appears only once complete.
   */
  lemma CodeDispatch(n: Node, displayed: int)
    requires n.kind == "code"
    ensures PluginCount(AllPlugins, n) == 1
    ensures n.lang == Some("mermaid") ==>
      PluginSlice(AllPlugins, n, displayed, 1) == if displayed > 0 then Some(n) else None
    ensures n.lang != Some("mermaid") ==>
      PluginSlice(AllPlugins, n, displayed, 1) == if displayed >= 1 then Some(n) else None
  {
    FirstPluginWins(MermaidPlugin, AllPlugins[1..], n, displayed, 1);
    FirstPluginWins(CodeBlockPlugin, AllPlugins[2..], n, displayed, 1);
    assert AllPlugins == [MermaidPlugin] + AllPlugins[1..];
    assert AllPlugins[1..] == [CodeBlockPlugin] + AllPlugins[2..];
    UnclaimedIsDefault(AllPlugins[2..], n, displayed, 1);
  }

  /**
   * With the default plugins an image counts no characters, so a block of
   * only images finishes at its first tick; its truncation is the default one.
   */
  lemma ImageDispatch(n: Node, displayed: int, total: int)
    requires n.kind == "image"
    ensures PluginCount(DefaultPlugins, n) == 0
    ensures PluginSlice(DefaultPlugins, n, displayed, total) == AstUtils.SliceAst(n, displayed)
  {
    FirstPluginWins(ImagePlugin, [ThematicBreakPlugin], n, displayed, total);
    FirstPluginWins(ThematicBreakPlugin, [], n, displayed, total);
    assert DefaultPlugins == [ImagePlugin] + [ThematicBreakPlugin];
    assert [ThematicBreakPlugin] == [ThematicBreakPlugin] + [];
  }

  // ---------------------------------------------------------------------
  // The transformer
  // ---------------------------------------------------------------------

  class BlockTransformer<T> {
    var state: TransformerState<T>
    /** A frame is requested (`rafId !== null`). */
    var scheduled: bool
    var isRunning: bool
    var isPaused: bool
    const charsPerTick: TickStep
    const plugins: seq<Plugin>
    /** The ids of the blocks held, in the order they were first pushed. */
    ghost var order: seq<string>

    /**
     * A scheduled frame belongs to a running, unpaused transformer; a running
     * transformer has a current block; nothing is shown without one; and the
     * blocks held are exactly the ones pushed, in push order.
     */
    ghost predicate Valid()
      reads this
    {
      && (scheduled ==> isRunning && !isPaused)
      && (isRunning ==> state.currentBlock.Some?)
      && (state.currentBlock.None? ==> state.currentProgress == 0)
      && Ids(AllBlocks(state)) == order
    }

    constructor(charsPerTick: Option<TickStep>, plugins: Option<seq<Plugin>>)
      ensures this.charsPerTick == if charsPerTick.Some? then charsPerTick.value else Fixed(1)
      ensures this.plugins == if plugins.Some? then plugins.value else []
      ensures state == EmptyState() && order == []
      ensures !scheduled && !isRunning && !isPaused
      ensures Valid()
    {
      this.charsPerTick := if charsPerTick.Some? then charsPerTick.value else Fixed(1);
      this.plugins := if plugins.Some? then plugins.value else [];
      state := EmptyState();
      scheduled, isRunning, isPaused := false, false, false;
      order := [];
    }

    /**
     * `push(blocks)`: the blocks whose ids are not held yet join the end of
     * the queue in input order; a current block that reappears with a
     * different node is replaced by it.
     */
    method Push(blocks: seq<SourceBlock<T>>)
      requires Valid()
      modifies this`state, this`isRunning, this`scheduled, this`order
      ensures Valid() && isPaused == old(isPaused)
      ensures var added := NewBlocks(blocks, Ids(AllBlocks(old(state))));
        && order == old(order) + Ids(added)
        && state.completedBlocks == old(state.completedBlocks)
        && state.currentProgress == old(state.currentProgress)
        && Ids(Waiting(state)) == Ids(Waiting(old(state)) + added)
        && |Waiting(state)| == |Waiting(old(state)) + added|
        && (Waiting(state) != [] ==> Waiting(state)[1..] == (Waiting(old(state)) + added)[1..])
        && (Waiting(state) != [] ==> Waiting(state)[0] in [(Waiting(old(state)) + added)[0]] + blocks)
        && (added != [] && !old(scheduled) && !old(isPaused) ==> scheduled && isRunning)
      ensures old(scheduled) ==> scheduled
      ensures var added := NewBlocks(blocks, Ids(AllBlocks(old(state))));
        var queued := Queued(old(state), added, added != [] && !old(scheduled) && !old(isPaused));
        var u := Found(queued, blocks);
        && (state == queued || (u.Some? && state == queued.(currentBlock := u)))
        && (u.Some? && u.value.node != queued.currentBlock.value.node ==>
              && state == queued.(currentBlock := u)
              && (!isPaused && state.currentProgress < PluginCount(plugins, u.value.node) ==> scheduled && isRunning))
      ensures old(scheduled) || old(isPaused) ==> scheduled == old(scheduled) && isRunning == old(isRunning)
      ensures var added := NewBlocks(blocks, Ids(AllBlocks(old(state))));
        var u := Found(old(state), blocks);
        added == [] && !(u.Some? && state.currentProgress < PluginCount(plugins, u.value.node)) ==>
          scheduled == old(scheduled) && isRunning == old(isRunning)
    {
      var added := QueueNew(blocks);
      RefreshCurrent(blocks);
    }

    /** The first half of `push(blocks)`: the blocks whose ids are new join the queue, if there are any. */
    method QueueNew(blocks: seq<SourceBlock<T>>) returns (added: seq<SourceBlock<T>>)
      requires Valid()
      modifies this`state, this`isRunning, this`scheduled, this`order
      ensures Valid() && added == NewBlocks(blocks, Ids(AllBlocks(old(state))))
      ensures order == old(order) + Ids(added)
      ensures Waiting(state) == Waiting(old(state)) + added
      ensures state == Queued(old(state), added, added != [] && !old(scheduled) && !old(isPaused))
      ensures added != [] && !old(scheduled) && !old(isPaused) ==> scheduled && isRunning
      ensures old(scheduled) || old(isPaused) || added == [] ==>
        scheduled == old(scheduled) && isRunning == old(isRunning)
    {
      var existingIds := GetAllBlockIds();
      added := NewBlocks(blocks, existingIds);
      if |added| > 0 {
        Enqueue(added);
      } else {
        assert Waiting(state) + added == Waiting(state);
        assert state.pendingBlocks + added == state.pendingBlocks;
      }
    }

    /** `pendingBlocks.push(...blocks)` followed by `startIfNeeded()`. */
    method Enqueue(blocks: seq<SourceBlock<T>>)
      requires Valid()
      modifies this`state, this`isRunning, this`scheduled, this`order
      ensures Valid() && order == old(order) + Ids(blocks)
      ensures state.completedBlocks == old(state.completedBlocks)
      ensures state.currentProgress == old(state.currentProgress)
      ensures Waiting(state) == Waiting(old(state)) + blocks
      ensures state == Queued(old(state), blocks, !old(scheduled) && !old(isPaused))
      ensures blocks != [] && !old(scheduled) && !old(isPaused) ==> scheduled && isRunning
      ensures old(scheduled) ==> scheduled
      ensures old(scheduled) || old(isPaused) ==> scheduled == old(scheduled) && isRunning == old(isRunning)
      ensures !old(scheduled) && !old(isPaused) ==>
        scheduled == state.currentBlock.Some? && isRunning == (old(isRunning) || state.currentBlock.Some?)
    {
      ghost var s0 := state;
      state := state.(pendingBlocks := state.pendingBlocks + blocks);
      order := order + Ids(blocks);
      AppendPending(s0, blocks);
      StartIfNeeded();
      PromoteKeepsQueue(s0.(pendingBlocks := s0.pendingBlocks + blocks));
    }

    /**
     * The second half of `push(blocks)`: a current block found among the
     * pushed blocks as a different object replaces it, and the animation
     * restarts when it has more left to show.
     */
    method RefreshCurrent(blocks: seq<SourceBlock<T>>)
      requires Valid()
      modifies this`state, this`isRunning, this`scheduled
      ensures Valid() && order == old(order)
      ensures state.completedBlocks == old(state.completedBlocks)
      ensures state.currentProgress == old(state.currentProgress)
      ensures Ids(Waiting(state)) == Ids(Waiting(old(state)))
      ensures |Waiting(state)| == |Waiting(old(state))|
      ensures Waiting(state) != [] ==> Waiting(state)[1..] == Waiting(old(state))[1..]
      ensures Waiting(state) != [] ==> Waiting(state)[0] in [Waiting(old(state))[0]] + blocks
      ensures old(scheduled) ==> scheduled
      ensures var u := Found(old(state), blocks);
        && (state == old(state) || (u.Some? && state == old(state).(currentBlock := u)))
        && (u.None? ==> scheduled == old(scheduled) && isRunning == old(isRunning))
        && (u.Some? && u.value.node != old(state.currentBlock).value.node ==>
              && state == old(state).(currentBlock := u)
              && (!old(scheduled) && !isPaused && state.currentProgress < PluginCount(plugins, u.value.node) ==>
                    scheduled && isRunning))
      ensures var u := Found(old(state), blocks);
        !(u.Some? && !old(scheduled) && !isPaused && state.currentProgress < PluginCount(plugins, u.value.node)) ==>
          scheduled == old(scheduled) && isRunning == old(isRunning)
    {
      if state.currentBlock.Some? {
        var current := state.currentBlock.value;
        var updated := FindById(blocks, current.id);
        if updated.Some? {
          // `updated.node !== current.node` compares object identity: nodes
          // that differ as values are different objects, equal ones may be.
          var differentObject: bool :| updated.value.node != current.node ==> differentObject;
          if differentObject {
            ReplaceCurrent(updated.value);
            if !scheduled && !isPaused {
              var total := CountChars(updated.value.node);
              if state.currentProgress < total {
                StartIfNeeded();
              }
            }
          }
        }
      }
    }

    /** `state.currentBlock = block` for a block with the current block's id. */
    method ReplaceCurrent(block: SourceBlock<T>)
      requires Valid() && state.currentBlock.Some? && state.currentBlock.value.id == block.id
      modifies this`state
      ensures Valid() && state == old(state).(currentBlock := Some(block))
      ensures Ids(Waiting(state)) == Ids(Waiting(old(state)))
      ensures Waiting(state)[1..] == Waiting(old(state))[1..] && Waiting(state)[0] == block
    {
      ghost var s0 := state;
      state := state.(currentBlock := Some(block));
      assert Ids(CurrentSeq(state)) == Ids(CurrentSeq(s0));
      IdsConcat(CurrentSeq(state), state.pendingBlocks);
      IdsConcat(CurrentSeq(s0), s0.pendingBlocks);
      IdsConcat(state.completedBlocks, Waiting(state));
      IdsConcat(s0.completedBlocks, Waiting(s0));
    }

    /**
     * `update(block)`: a new version of the current block replaces it, and
     * the animation restarts when the block grew after being fully shown.
     */
    method Update(block: SourceBlock<T>)
      requires Valid()
      modifies this`state, this`isRunning, this`scheduled
      ensures Valid() && isPaused == old(isPaused) && order == old(order)
      ensures old(state.currentBlock).Some? && old(state.currentBlock).value.id == block.id ==>
        var oldTotal := PluginCount(plugins, old(state.currentBlock).value.node);
        var restart := PluginCount(plugins, block.node) > oldTotal && !old(scheduled) && !old(isPaused)
                       && old(state.currentProgress) >= oldTotal;
        && state == old(state).(currentBlock := Some(block))
        && scheduled == (old(scheduled) || restart)
        && isRunning == (old(isRunning) || restart)
      ensures !(old(state.currentBlock).Some? && old(state.currentBlock).value.id == block.id) ==>
        state == old(state) && scheduled == old(scheduled) && isRunning == old(isRunning)
    {
      if state.currentBlock.Some? && state.currentBlock.value.id == block.id {
        var oldTotal := CountChars(state.currentBlock.value.node);
        var newTotal := CountChars(block.node);
        ReplaceCurrent(block);
        if newTotal > oldTotal && !scheduled && !isPaused && state.currentProgress >= oldTotal {
          StartIfNeeded();
        }
      }
    }

    /** `skip()`: every block held is completed at once, in order, and the animation stops. */
    method Skip()
      requires Valid()
      modifies this`state, this`isRunning, this`scheduled, this`isPaused
      ensures Valid() && order == old(order)
      ensures state == TransformerState(AllBlocks(old(state)), None, 0, [])
      ensures !scheduled && !isRunning && !isPaused
    {
      Stop();
      state := TransformerState(AllBlocks(state), None, 0, []);
    }

    /** `reset()`: no blocks at all, and the animation stops. */
    method Reset()
      requires Valid()
      modifies this`state, this`isRunning, this`scheduled, this`isPaused, this`order
      ensures Valid() && state == EmptyState() && order == []
      ensures !scheduled && !isRunning && !isPaused
    {
      Stop();
      state := EmptyState();
      order := [];
    }

    /** `pause()`: paused, with no frame scheduled. */
    method Pause()
      requires Valid()
      modifies this`isPaused, this`scheduled
      ensures Valid() && isPaused && !scheduled
    {
      isPaused := true;
      CancelRaf();
    }

    /** `resume()`: only a paused transformer resumes, restarting the animation if there is something to show. */
    method Resume()
      requires Valid()
      modifies this`isPaused, this`state, this`isRunning, this`scheduled
      ensures Valid() && !isPaused
      ensures !old(isPaused) ==> state == old(state) && scheduled == old(scheduled) && isRunning == old(isRunning)
      ensures old(isPaused) ==>
        && state == Promote(old(state))
        && scheduled == state.currentBlock.Some?
        && isRunning == (old(isRunning) || state.currentBlock.Some?)
    {
      if isPaused {
        isPaused := false;
        StartIfNeeded();
      }
    }

    /**
     * `getDisplayBlocks()`: every completed block shown whole, then the
     * current block truncated to its progress; the waiting blocks are not
     * shown.
     */
    method GetDisplayBlocks() returns (result: seq<DisplayBlock<T>>)
      requires Valid()
      ensures |result| == |state.completedBlocks| + |CurrentSeq(state)|
      ensures forall i :: 0 <= i < |state.completedBlocks| ==> result[i] == Shown(state.completedBlocks[i])
      ensures state.currentBlock.Some? ==>
        var b := state.currentBlock.value;
        var total := PluginCount(plugins, b.node);
        var sliced := PluginSlice(plugins, b.node, state.currentProgress, total);
        result[|result| - 1] == DisplayBlock(b.id, b.node, b.status, b.meta,
                                             if sliced.Some? then sliced.value else EmptyParagraph,
                                             Fraction(state.currentProgress, total), false)
    {
      result := [];
      for i := 0 to |state.completedBlocks|
        invariant |result| == i
        invariant forall j :: 0 <= j < i ==> result[j] == Shown(state.completedBlocks[j])
      {
        result := result + [Shown(state.completedBlocks[i])];
      }
      if state.currentBlock.Some? {
        var b := state.currentBlock.value;
        var total := CountChars(b.node);
        var displayNode := SliceNode(b.node, state.currentProgress);
        result := result + [DisplayBlock(b.id, b.node, b.status, b.meta,
                                         if displayNode.Some? then displayNode.value else EmptyParagraph,
                                         Fraction(state.currentProgress, total), false)];
      }
    }

    /** `isProcessing()`: running, or something left to reveal; under the invariant, exactly the latter. */
    method IsProcessing() returns (b: bool)
      requires Valid()
      ensures b <==> Waiting(state) != []
    {
      b := isRunning || state.currentBlock.Some? || |state.pendingBlocks| > 0;
    }

    /** The ids of every block held. */
    method GetAllBlockIds() returns (ids: seq<string>)
      requires Valid()
      ensures ids == order
    {
      ids := Ids(AllBlocks(state));
    }

    /** `startIfNeeded()`: unless a frame is scheduled or the transformer is paused, start revealing the head of the queue. */
    method StartIfNeeded()
      requires Valid()
      modifies this`state, this`isRunning, this`scheduled
      ensures Valid()
      ensures old(scheduled) || old(isPaused) ==>
        state == old(state) && scheduled == old(scheduled) && isRunning == old(isRunning)
      ensures !old(scheduled) && !old(isPaused) ==>
        && state == Promote(old(state))
        && scheduled == state.currentBlock.Some?
        && isRunning == (old(isRunning) || state.currentBlock.Some?)
    {
      if scheduled || isPaused {
        return;
      }
      PromoteKeepsQueue(state);
      state := Promote(state);
      if state.currentBlock.Some? {
        isRunning := true;
        scheduled := true;
      }
    }

    /**
     * `animationFrame(time)`: the frame is no longer pending; when at least
     * `tickInterval` has elapsed since the last tick (decided by the caller,
     * as the clock is not modelled) the transformer ticks; a running,
     * unpaused transformer asks for the next frame.
     */
    method AnimationFrame(intervalElapsed: bool)
      requires Valid()
      modifies this`state, this`isRunning, this`scheduled
      ensures Valid() && order == old(order) && isPaused == old(isPaused)
      ensures !intervalElapsed ==> state == old(state) && isRunning == old(isRunning)
      ensures intervalElapsed && old(state.currentBlock).None? ==> state == Promote(old(state))
      ensures intervalElapsed && old(state.currentBlock).Some? ==>
        exists step :: StepAllowed(charsPerTick, step)
          && state == AfterTick(old(state), step, PluginCount(plugins, old(state.currentBlock).value.node))
      ensures intervalElapsed && state.currentBlock.None? ==> !isRunning
      ensures state.currentBlock.Some? ==> isRunning == old(isRunning)
      ensures scheduled == (isRunning && !isPaused)
    {
      scheduled := false;
      if intervalElapsed {
        ghost var step := Tick();
      }
      if isRunning && !isPaused {
        scheduled := true;
      }
    }

    /**
     * `tick()`: advance the current block by one step, capped at its total;
     * once the total is reached it joins the completed blocks and the next
     * one comes up. Without a current block, only the next one comes up.
     * The step drawn is reported.
     */
    method Tick() returns (ghost step: int)
      requires Valid()
      modifies this`state, this`isRunning, this`scheduled
      ensures Valid() && order == old(order) && isPaused == old(isPaused)
      ensures old(state.currentBlock).None? ==> state == Promote(old(state))
      ensures old(state.currentBlock).Some? ==>
        && StepAllowed(charsPerTick, step)
        && state == AfterTick(old(state), step, PluginCount(plugins, old(state.currentBlock).value.node))
      ensures state.currentBlock.None? ==> !isRunning && !scheduled
      ensures state.currentBlock.Some? ==> isRunning == old(isRunning) && scheduled == old(scheduled)
    {
      step := 0;
      if state.currentBlock.None? {
        ProcessNext();
        return;
      }
      var block := state.currentBlock.value;
      var total := CountChars(block.node);
      var s := GetStep();
      step := s;
      state := state.(currentProgress := Min(state.currentProgress + s, total));
      if state.currentProgress >= total {
        ghost var s0 := state;
        state := TransformerState(state.completedBlocks + [block], None, 0, state.pendingBlocks);
        assert AllBlocks(state) == AllBlocks(s0);
        ProcessNext();
      }
    }

    /** `getStep()`: the fixed step, or `Math.floor(Math.random() * (max - min + 1)) + min`. */
    method GetStep() returns (step: int)
      ensures StepAllowed(charsPerTick, step)
    {
      match charsPerTick
      case Fixed(n) =>
        step := n;
      case Between(lo, hi) =>
        assert 0.0 <= 0.0 < 1.0;
        var random: real :| 0.0 <= random < 1.0;
        step := (random * ((hi - lo + 1) as real)).Floor + lo;
        RandomStepBounds(random, hi - lo + 1);
    }

    /**
     * `processNext()`: the head of the queue comes up with nothing shown, or,
     * with an empty queue, the animation stops.
     */
    method ProcessNext()
      requires state.currentBlock.None? && state.currentProgress == 0
      requires (scheduled ==> isRunning && !isPaused) && Ids(AllBlocks(state)) == order
      modifies this`state, this`isRunning, this`scheduled
      ensures Valid() && state == Promote(old(state))
      ensures state.currentBlock.None? ==> !isRunning && !scheduled
      ensures state.currentBlock.Some? ==> isRunning == old(isRunning) && scheduled == old(scheduled)
    {
      PromoteKeepsQueue(state);
      if |state.pendingBlocks| > 0 {
        state := TransformerState(state.completedBlocks, Some(state.pendingBlocks[0]), 0, state.pendingBlocks[1..]);
      } else {
        isRunning := false;
        CancelRaf();
      }
    }

    /** `cancelRaf()` */
    method CancelRaf()
      modifies this`scheduled
      ensures !scheduled
    {
      scheduled := false;
    }

    /** `stop()` */
    method Stop()
      modifies this`scheduled, this`isRunning, this`isPaused
      ensures !scheduled && !isRunning && !isPaused
    {
      CancelRaf();
      isRunning := false;
      isPaused := false;
    }

    /** `countChars(node)`: the first claiming plugin that answers a count decides, else the default count. */
    method CountChars(node: Node) returns (count: int)
      ensures count == PluginCount(plugins, node)
    {
      for i := 0 to |plugins|
        invariant PluginCount(plugins[i..], node) == PluginCount(plugins, node)
      {
        assert plugins[i..][1..] == plugins[i + 1..];
        var plugin := plugins[i];
        if plugin.matcher.Some? && plugin.matcher.value(node) && plugin.count.Some? {
          var result := plugin.count.value(node);
          if result.Some? {
            return result.value;
          }
        }
      }
      var n := AstUtils.CountChars(node);
      count := n;
    }

    /** `sliceNode(node, chars)`: the first claiming plugin that answers a node decides, else the default truncation. */
    method SliceNode(node: Node, chars: int) returns (r: Option<Node>)
      ensures r == PluginSlice(plugins, node, chars, PluginCount(plugins, node))
    {
      for i := 0 to |plugins|
        invariant PluginSlice(plugins[i..], node, chars, PluginCount(plugins, node))
               == PluginSlice(plugins, node, chars, PluginCount(plugins, node))
      {
        assert plugins[i..][1..] == plugins[i + 1..];
        var plugin := plugins[i];
        if plugin.matcher.Some? && plugin.matcher.value(node) && plugin.slice.Some? {
          var total := CountChars(node);
          var result := plugin.slice.value(node, chars, total);
          if result.Some? {
            return result;
          }
        }
      }
      r := AstUtils.Slice(node, chars);
    }
  }

  lemma NonNegativeProduct(a: real, b: real)
    requires a >= 0.0 && b >= 0.0
    ensures a * b >= 0.0
  {
  }

  lemma PositiveProduct(a: real, b: real)
    requires a > 0.0 && b > 0.0
    ensures a * b > 0.0
  {
  }

  /** `floor(r * k)` for a fraction `r` and a positive `k` lies in `[0, k - 1]`. */
  lemma FloorOfFractionPositive(r: real, k: int)
    requires 0.0 <= r < 1.0 && k >= 1
    ensures 0 <= (r * (k as real)).Floor <= k - 1
  {
    var c := k as real;
    NonNegativeProduct(r, c);
    PositiveProduct(1.0 - r, c);
    assert c - r * c == (1.0 - r) * c;
  }

  lemma NonPositiveProduct(a: real, b: real)
    requires a >= 0.0 && b <= 0.0
    ensures a * b <= 0.0
  {
  }

  /** `floor(r * k)` for a fraction `r` and a non-positive `k` lies in `[k, 0]`. */
  lemma FloorOfFractionNonPositive(r: real, k: int)
    requires 0.0 <= r < 1.0 && k <= 0
    ensures k <= (r * (k as real)).Floor <= 0
  {
    var c := k as real;
    NonPositiveProduct(r, c);
    NonPositiveProduct(1.0 - r, c);
    assert c - r * c == (1.0 - r) * c;
  }

  /** `floor(random * k)` lies in `[0, k - 1]` for `k >= 1` and in `[k, 0]` otherwise. */
  lemma RandomStepBounds(random: real, k: int)
    requires 0.0 <= random < 1.0
    ensures k >= 1 ==> 0 <= (random * (k as real)).Floor <= k - 1
    ensures k < 1 ==> k <= (random * (k as real)).Floor <= 0
  {
    if k >= 1 {
      FloorOfFractionPositive(random, k);
    } else {
      FloorOfFractionNonPositive(random, k);
    }
  }
}
