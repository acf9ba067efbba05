/**
 * Character classes and scanning helpers that the detector's regular
 * expressions are built from. Strings are sequences of characters; a
 * character stands for one JavaScript UTF-16 code unit.
 */
module Text {

  /** JavaScript's `\s`: WhiteSpace and LineTerminator code points. */
  predicate IsWs(c: char) {
    c == ' ' || c == '\t' || c == '\n' || c == '\r' || c == '\U{B}' || c == '\U{C}'
    || c == '\U{A0}' || c == '\U{1680}' || ('\U{2000}' <= c <= '\U{200A}')
    || c == '\U{2028}' || c == '\U{2029}' || c == '\U{202F}' || c == '\U{205F}'
    || c == '\U{3000}' || c == '\U{FEFF}'
  }

  /** The characters JavaScript's `.` does not match. */
  predicate IsLineTerminator(c: char) {
    c == '\n' || c == '\r' || c == '\U{2028}' || c == '\U{2029}'
  }

  lemma LineTerminatorIsWs(c: char)
    requires IsLineTerminator(c)
    ensures IsWs(c)
  {
  }

  /** `\d` */
  predicate IsDigit(c: char) {
    '0' <= c <= '9'
  }

  /** `\w` */
  predicate IsWordChar(c: char) {
    ('a' <= c <= 'z') || ('A' <= c <= 'Z') || IsDigit(c) || c == '_'
  }

  /** `[\w-]` */
  predicate IsNameChar(c: char) {
    IsWordChar(c) || c == '-'
  }

  predicate AllWs(s: string) {
    forall i :: 0 <= i < |s| ==> IsWs(s[i])
  }

  /** The length of the longest prefix of `s` that is all whitespace (greedy `^\s*`). */
  function LeadingWs(s: string): (k: nat)
    ensures k <= |s|
    ensures AllWs(s[..k])
    ensures k < |s| ==> !IsWs(s[k])
  {
    if s == [] || !IsWs(s[0]) then 0
    else
      var k := 1 + LeadingWs(s[1..]);
      assert s[..k] == [s[0]] + s[1..][..k - 1];
      k
  }

  /** The whitespace prefix ends exactly at the first non-whitespace character. */
  lemma LeadingWsAt(s: string, j: nat)
    requires j < |s| && AllWs(s[..j]) && !IsWs(s[j])
    ensures LeadingWs(s) == j
  {
    var k := LeadingWs(s);
    assert forall i :: 0 <= i < j ==> IsWs(s[i]) by {
      forall i | 0 <= i < j ensures IsWs(s[i]) { assert s[..j][i] == s[i]; }
    }
    assert forall i :: 0 <= i < k ==> IsWs(s[i]) by {
      forall i | 0 <= i < k ensures IsWs(s[i]) { assert s[..k][i] == s[i]; }
    }
  }

  /** On an all-whitespace string the whitespace prefix is everything. */
  lemma {:induction false} LeadingWsAll(s: string)
    requires AllWs(s)
    ensures LeadingWs(s) == |s|
    decreases |s|
  {
    if s != [] {
      assert AllWs(s[1..]) by {
        forall i | 0 <= i < |s[1..]| ensures IsWs(s[1..][i]) { assert s[1..][i] == s[i + 1]; }
      }
      LeadingWsAll(s[1..]);
    }
  }

  /** The length of the run of `c` starting at index `i` (greedy `c*`). */
  function Run(s: string, i: nat, c: char): (m: nat)
    requires i <= |s|
    ensures i + m <= |s|
    ensures forall j :: i <= j < i + m ==> s[j] == c
    ensures i + m < |s| ==> s[i + m] != c
    decreases |s| - i
  {
    if i == |s| || s[i] != c then 0 else 1 + Run(s, i + 1, c)
  }

  /** A run of at least `m` copies of `c` from `i` is seen by the greedy scan. */
  lemma {:induction false} RunAtLeast(s: string, i: nat, c: char, m: nat)
    requires i + m <= |s|
    requires forall j :: i <= j < i + m ==> s[j] == c
    ensures Run(s, i, c) >= m
    decreases m
  {
    if m > 0 {
      RunAtLeast(s, i + 1, c, m - 1);
    }
  }

  /** The length of the run of digits starting at index `i` (greedy `\d*`). */
  function DigitRun(s: string, i: nat): (m: nat)
    requires i <= |s|
    ensures i + m <= |s|
    ensures forall j :: i <= j < i + m ==> IsDigit(s[j])
    ensures i + m < |s| ==> !IsDigit(s[i + m])
    decreases |s| - i
  {
    if i == |s| || !IsDigit(s[i]) then 0 else 1 + DigitRun(s, i + 1)
  }

  /** A run of at least `m` digits from `i` is seen by the greedy scan. */
  lemma {:induction false} DigitRunAtLeast(s: string, i: nat, m: nat)
    requires i + m <= |s|
    requires forall j :: i <= j < i + m ==> IsDigit(s[j])
    ensures DigitRun(s, i) >= m
    decreases m
  {
    if m > 0 {
      DigitRunAtLeast(s, i + 1, m - 1);
    }
  }

  /** The length of the run of `[\w-]` characters at the start of `s`. */
  function NameRun(s: string): (m: nat)
    ensures m <= |s|
    ensures forall j :: 0 <= j < m ==> IsNameChar(s[j])
    ensures m < |s| ==> !IsNameChar(s[m])
  {
    if s == [] || !IsNameChar(s[0]) then 0 else 1 + NameRun(s[1..])
  }

  /** The index of the first line terminator in `s`, or `|s|`. */
  function FirstTerminator(s: string): (p: nat)
    ensures p <= |s|
    ensures forall j :: 0 <= j < p ==> !IsLineTerminator(s[j])
    ensures p < |s| ==> IsLineTerminator(s[p])
  {
    if s == [] || IsLineTerminator(s[0]) then 0 else 1 + FirstTerminator(s[1..])
  }

  /** The length of the longest suffix of `s` that is all whitespace. */
  function TrailingWs(s: string): (k: nat)
    ensures k <= |s|
    ensures AllWs(s[|s| - k..])
    ensures k < |s| ==> !IsWs(s[|s| - k - 1])
  {
    if s == [] || !IsWs(s[|s| - 1]) then 0
    else
      var k := 1 + TrailingWs(s[..|s| - 1]);
      assert s[|s| - k..] == s[..|s| - 1][|s| - k..] + [s[|s| - 1]];
      k
  }

  /** JavaScript's `String.prototype.trim`. */
  function Trim(s: string): (t: string)
    ensures |t| <= |s|
    ensures t == [] || (!IsWs(t[0]) && !IsWs(t[|t| - 1]))
    ensures t == [] <==> AllWs(s)
  {
    var k := LeadingWs(s);
    if k == |s| then [] else s[k..|s| - TrailingWs(s)]
  }

  /** What `Trim` keeps is a slice of its input with only whitespace cut off either end. */
  lemma TrimSlice(s: string)
    ensures exists i, j :: 0 <= i <= j <= |s| && Trim(s) == s[i..j] && AllWs(s[..i]) && AllWs(s[j..])
  {
    var k := LeadingWs(s);
    if k == |s| {
      assert Trim(s) == s[k..k] && AllWs(s[..k]) && AllWs(s[k..]);
    } else {
      var e := |s| - TrailingWs(s);
      assert Trim(s) == s[k..e] && AllWs(s[..k]) && AllWs(s[e..]);
    }
  }

  /** The decimal digit for `d`. */
  function DigitChar(d: nat): (c: char)
    requires d < 10
    ensures IsDigit(c)
  {
    ['0', '1', '2', '3', '4', '5', '6', '7', '8', '9'][d]
  }

  /** The decimal representation of `n`, as JavaScript's template literals print it. */
  function NatToString(n: nat): (s: string)
    ensures |s| >= 1
    ensures n >= 10 ==> |s| >= 2
    ensures forall i :: 0 <= i < |s| ==> IsDigit(s[i])
  {
    if n < 10 then [DigitChar(n)] else NatToString(n / 10) + [DigitChar(n % 10)]
  }

  lemma DigitCharInjective(a: nat, b: nat)
    requires a < 10 && b < 10 && DigitChar(a) == DigitChar(b)
    ensures a == b
  {
  }

  /** Distinct numbers print differently. */
  lemma {:induction false} NatToStringInjective(a: nat, b: nat)
    requires NatToString(a) == NatToString(b)
    ensures a == b
  {
    var sa, sb := NatToString(a), NatToString(b);
    if a < 10 || b < 10 {
      // a single digit never prints like a number of two or more digits
      if a < 10 && b < 10 {
        DigitCharInjective(a, b);
      }
    } else {
      assert sa[|sa| - 1] == DigitChar(a % 10) && sb[|sb| - 1] == DigitChar(b % 10);
      DigitCharInjective(a % 10, b % 10);
      assert sa[..|sa| - 1] == NatToString(a / 10);
      assert sb[..|sb| - 1] == NatToString(b / 10);
      NatToStringInjective(a / 10, b / 10);
    }
  }
}
