/**
 * The parser's view of its buffer as lines: JavaScript's `split('\n')` and
 * `join('\n')`, the text of a run of lines each followed by a newline, and
 * the prefix sums of line lengths that locate each line in the buffer.
 */
module Lines {

  /** `s` contains no newline. */
  predicate NoNewline(s: string) {
    forall j :: 0 <= j < |s| ==> s[j] != '\n'
  }

  /** No piece contains a newline. */
  predicate NoNewlines(ls: seq<string>) {
    forall i :: 0 <= i < |ls| ==> NoNewline(ls[i])
  }

  /** The index of the first `'\n'` in `s`, or `|s|` when there is none. */
  function FirstNewline(s: string): (p: nat)
    ensures p <= |s|
    ensures p < |s| ==> s[p] == '\n'
  {
    if s == [] then 0
    else if s[0] == '\n' then 0
    else 1 + FirstNewline(s[1..])
  }

  /** No newline comes before the first one. */
  lemma {:induction false} BeforeFirstNewline(s: string)
    ensures forall j :: 0 <= j < FirstNewline(s) ==> s[j] != '\n'
  {
    if s != [] && s[0] != '\n' {
      BeforeFirstNewline(s[1..]);
    }
  }

  /** `s.split('\n')`: the pieces between newlines, always at least one. */
  function Split(s: string): (r: seq<string>)
    ensures |r| >= 1
    decreases |s|
  {
    var p := FirstNewline(s);
    if p == |s| then [s] else [s[..p]] + Split(s[p + 1..])
  }

  /** Each piece followed by a newline: the text of complete lines. */
  function Terminated(ls: seq<string>): string
  {
    if ls == [] then "" else ls[0] + "\n" + Terminated(ls[1..])
  }

  /** `ls.join('\n')` */
  function Join(ls: seq<string>): string
  {
    if ls == [] then "" else Terminated(ls[..|ls| - 1]) + ls[|ls| - 1]
  }

  /**
   * `offs` is the `lineOffsets` array for `ls`: it starts at 0 and each line
   * takes its length plus one for the newline that follows it.
   */
  predicate IsLineOffsets(ls: seq<string>, offs: seq<int>) {
    && |offs| == |ls| + 1
    && offs[0] == 0
    && forall i :: 0 <= i < |ls| ==> offs[i + 1] == offs[i] + |ls[i]| + 1
  }

  // ---------------------------------------------------------------------
  // Lemmas
  // ---------------------------------------------------------------------

  lemma {:induction false} TerminatedAppend(ls: seq<string>, x: string)
    ensures Terminated(ls + [x]) == Terminated(ls) + x + "\n"
    decreases |ls|
  {
    if ls == [] {
      assert Terminated([x]) == x + "\n" + Terminated([]);
    } else {
      assert (ls + [x])[1..] == ls[1..] + [x];
      TerminatedAppend(ls[1..], x);
    }
  }

  lemma {:induction false} TerminatedConcat(a: seq<string>, b: seq<string>)
    ensures Terminated(a + b) == Terminated(a) + Terminated(b)
    decreases |a|
  {
    if a != [] {
      assert (a + b)[0] == a[0];
      assert (a + b)[1..] == a[1..] + b;
      TerminatedConcat(a[1..], b);
      calc {
        Terminated(a + b);
        a[0] + "\n" + Terminated(a[1..] + b);
        a[0] + "\n" + (Terminated(a[1..]) + Terminated(b));
        (a[0] + "\n" + Terminated(a[1..])) + Terminated(b);
      }
    } else {
      assert a + b == b;
    }
  }

  /** The offset of line `i` is the length of the text of the lines before it. */
  lemma {:induction false} OffsetIsPrefixLength(ls: seq<string>, offs: seq<int>, i: nat)
    requires IsLineOffsets(ls, offs) && i <= |ls|
    ensures offs[i] == |Terminated(ls[..i])|
    decreases i
  {
    if i > 0 {
      OffsetIsPrefixLength(ls, offs, i - 1);
      assert ls[..i] == ls[..i - 1] + [ls[i - 1]];
      TerminatedAppend(ls[..i - 1], ls[i - 1]);
    }
  }

  /** Pushing a line and its end offset keeps the offsets array in step. */
  lemma LineOffsetsPush(ls: seq<string>, offs: seq<int>, x: string)
    requires IsLineOffsets(ls, offs)
    ensures IsLineOffsets(ls + [x], offs + [offs[|ls|] + |x| + 1])
  {
  }

  /** No piece of a split contains a newline. */
  lemma {:induction false} SplitNoNewlines(s: string)
    ensures NoNewlines(Split(s))
    decreases |s|
  {
    var p := FirstNewline(s);
    BeforeFirstNewline(s);
    if p < |s| {
      SplitAtFirstNewline(s);
      SplitNoNewlines(s[p + 1..]);
    }
  }

  /** Joining a line in front of at least one more line puts a newline between. */
  lemma JoinCons(head: string, rest: seq<string>)
    requires |rest| >= 1
    ensures Join([head] + rest) == head + "\n" + Join(rest)
  {
    var init := rest[..|rest| - 1];
    assert ([head] + rest)[..|rest|] == [head] + init;
    TerminatedConcat([head], init);
    assert Terminated([head]) == head + "\n" by {
      assert [head][1..] == [];
    }
  }

  /** The text around its first newline. */
  lemma SplitAtFirstNewline(s: string)
    requires FirstNewline(s) < |s|
    ensures Split(s) == [s[..FirstNewline(s)]] + Split(s[FirstNewline(s) + 1..])
  {
  }

  lemma AroundFirstNewline(s: string)
    requires FirstNewline(s) < |s|
    ensures s == s[..FirstNewline(s)] + "\n" + s[FirstNewline(s) + 1..]
  {
    AroundNewline(s, FirstNewline(s));
  }

  lemma AroundNewline(s: string, p: nat)
    requires p < |s| && s[p] == '\n'
    ensures s == s[..p] + "\n" + s[p + 1..]
  {
    assert "\n" == [s[p]];
    assert s == s[..p] + [s[p]] + s[p + 1..];
  }

  /** The parts of a line, a newline and the rest. */
  lemma ConsParts(h: string, rest: string)
    ensures var s := h + "\n" + rest;
      |s| == |h| + 1 + |rest| && s[..|h|] == h && s[|h|] == '\n' && s[|h| + 1..] == rest
  {
    var s := h + "\n" + rest;
    assert s == h + ['\n'] + rest;
  }

  /** Joining splits apart again: the text is recovered. */
  lemma {:induction false} JoinSplit(s: string)
    ensures Join(Split(s)) == s
    decreases |s|
  {
    var p := FirstNewline(s);
    if p < |s| {
      SplitAtFirstNewline(s);
      AroundFirstNewline(s);
      JoinSplit(s[p + 1..]);
      JoinCons(s[..p], Split(s[p + 1..]));
    }
  }

  /** Splitting text that begins with complete lines yields those lines first. */
  lemma {:induction false} SplitTerminated(p: seq<string>, t: string)
    requires NoNewlines(p)
    ensures Split(Terminated(p) + t) == p + Split(t)
    decreases |p|
  {
    if p == [] {
      assert Terminated(p) + t == t;
    } else {
      TerminatedConsText(p, t);
      SplitCons(p[0], Terminated(p[1..]) + t);
      SplitTerminated(p[1..], t);
      ConsAssoc(p, Split(t));
    }
  }

  lemma TerminatedConsText(p: seq<string>, t: string)
    requires p != []
    ensures Terminated(p) + t == p[0] + "\n" + (Terminated(p[1..]) + t)
  {
  }

  lemma ConsAssoc(p: seq<string>, r: seq<string>)
    requires p != []
    ensures [p[0]] + (p[1..] + r) == p + r
  {
    assert [p[0]] + p[1..] == p;
  }

  /** A first line without a newline is split off whole. */
  lemma SplitCons(h: string, rest: string)
    requires NoNewline(h)
    ensures Split(h + "\n" + rest) == [h] + Split(rest)
  {
    var s := h + "\n" + rest;
    ConsParts(h, rest);
    FirstNewlineAt(s, |h|);
    SplitAtFirstNewline(s);
  }

  lemma FirstNewlineAt(s: string, j: nat)
    requires j < |s| && s[j] == '\n' && NoNewline(s[..j])
    ensures FirstNewline(s) == j
  {
    BeforeFirstNewline(s);
    assert forall q :: 0 <= q < j ==> s[q] != '\n' by {
      forall q | 0 <= q < j ensures s[q] != '\n' { assert s[..j][q] == s[q]; }
    }
  }

  /** Splitting joined lines that contain no newline gives the lines back. */
  lemma SplitJoin(ls: seq<string>)
    requires |ls| >= 1 && NoNewlines(ls)
    ensures Split(Join(ls)) == ls
  {
    var last := ls[|ls| - 1];
    SplitTerminated(ls[..|ls| - 1], last);
    assert FirstNewline(last) == |last|;
    assert ls[..|ls| - 1] + [last] == ls;
  }

  /** The text from line `i` on starts right after the terminated lines before it. */
  lemma {:induction false} JoinAt(ls: seq<string>, i: nat)
    requires i < |ls|
    ensures Join(ls) == Terminated(ls[..i]) + Join(ls[i..])
  {
    var n := |ls|;
    var a, b, suffix := ls[..i], ls[i..n - 1], ls[i..];
    assert ls[..n - 1] == a + b;
    assert suffix[..|suffix| - 1] == b;
    assert suffix[|suffix| - 1] == ls[n - 1];
    TerminatedConcat(a, b);
    calc {
      Join(ls);
      Terminated(a + b) + ls[n - 1];
      Terminated(a) + Terminated(b) + ls[n - 1];
      Terminated(a) + (Terminated(b) + ls[n - 1]);
      Terminated(a) + Join(suffix);
    }
  }

  /**
   * Appending to text whose lines are known re-splits only from the start
   * of the last known line: the earlier lines stay as they are.
   */
  lemma SplitExtends(old_: seq<string>, s: string)
    requires |old_| >= 1 && NoNewlines(old_)
    requires Join(old_) <= s
    ensures |Terminated(old_[..|old_| - 1])| <= |s|
    ensures Split(s) == old_[..|old_| - 1] + Split(s[|Terminated(old_[..|old_| - 1])|..])
  {
    var p := old_[..|old_| - 1];
    var off := |Terminated(p)|;
    PrefixOfPrefix(Terminated(p), Join(old_), s);
    assert NoNewlines(p) by {
      forall i | 0 <= i < |p| ensures NoNewline(p[i]) { assert p[i] == old_[i]; }
    }
    SplitTerminated(p, s[off..]);
  }

  lemma PrefixOfPrefix(a: string, b: string, s: string)
    requires a <= b && b <= s
    ensures |a| <= |s| && s == a + s[|a|..]
  {
  }

  /**
   * Line `i` starts at offset `offs[i]` of the text it was split from, and
   * the text from there on is the remaining lines joined.
   */
  lemma OffsetLocatesText(text: string, ls: seq<string>, offs: seq<int>, i: nat)
    requires ls == Split(text) && IsLineOffsets(ls, offs) && i < |ls|
    ensures 0 <= offs[i] <= |text|
    ensures text[offs[i]..] == Join(ls[i..])
    ensures text[..offs[i]] == Terminated(ls[..i])
  {
    JoinSplit(text);
    JoinAt(ls, i);
    OffsetIsPrefixLength(ls, offs, i);
  }
}
