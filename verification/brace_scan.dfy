/**
 * The first match of the regular expression `\{[\s\S]*?\}` in a string, as
 * `re.findall(...)[0]` gives it: a `{`, then as few characters as possible, then a `}`.
 * The scan below tries each start position in turn, as the regex engine does.
 */
module BraceScan {
  import opened Wrappers
  import Text

  /** The first `}` at or after `from`. */
  function CloseFrom(s: string, from: nat): (r: Option<nat>)
    requires from <= |s|
    ensures r.Some? ==> from <= r.value < |s| && s[r.value] == '}'
    ensures r.Some? ==> forall k :: from <= k < r.value ==> s[k] != '}'
    ensures r.None? ==> forall k :: from <= k < |s| ==> s[k] != '}'
    decreases |s| - from
  {
    if from == |s| then None
    else if s[from] == '}' then Some(from)
    else CloseFrom(s, from + 1)
  }

  /** There is a `{` at `i` and a `}` at `j` with `i < j`. */
  ghost predicate Pair(s: string, i: int, j: int)
  {
    0 <= i < j < |s| && s[i] == '{' && s[j] == '}'
  }

  /** Some `{` in `s` at or after `pos` has a `}` after it. */
  ghost predicate HasPairFrom(s: string, pos: nat)
  {
    exists i, j :: pos <= i && Pair(s, i, j)
  }

  /** The span `s[i..j+1]` is the leftmost match: `i` is the first `{` and `j` the first `}` after it. */
  ghost predicate LeftmostSpan(s: string, i: nat, j: nat)
  {
    && Pair(s, i, j)
    && (forall k :: 0 <= k < i ==> s[k] != '{')
    && (forall k :: i < k < j ==> s[k] != '}')
  }

  /** The regex scan from position `pos`: the first start that can be completed wins. */
  function ScanFrom(s: string, pos: nat): (r: Option<(nat, nat)>)
    requires pos <= |s|
    ensures r.Some? ==> pos <= r.value.0 && Pair(s, r.value.0, r.value.1)
    ensures r.Some? ==> forall k :: pos <= k < r.value.0 ==> s[k] != '{'
    ensures r.Some? ==> forall k :: r.value.0 < k < r.value.1 ==> s[k] != '}'
    ensures r.None? <==> !HasPairFrom(s, pos)
    decreases |s| - pos
  {
    if pos == |s| then None
    else if s[pos] == '{' then
      match CloseFrom(s, pos + 1)
      case Some(j) => assert Pair(s, pos, j); Some((pos, j))
      case None => ScanFrom(s, pos + 1)
    else ScanFrom(s, pos + 1)
  }

  /** The leftmost match, as the pair of positions of its `{` and its `}`. */
  function FirstSpan(s: string): (r: Option<(nat, nat)>)
    ensures r.Some? ==> LeftmostSpan(s, r.value.0, r.value.1)
    ensures r.None? <==> !HasPairFrom(s, 0)
  {
    ScanFrom(s, 0)
  }

  /** `re.findall(r'\{[\s\S]*?\}', s)[0]`, or `None` where the list is empty. */
  function FirstBraceBlock(s: string): (r: Option<string>)
    ensures r.Some? ==> |r.value| >= 2 && r.value[0] == '{' && r.value[|r.value| - 1] == '}'
    ensures r.Some? ==> forall k :: 0 < k < |r.value| - 1 ==> r.value[k] != '}'
    ensures r.None? <==> !HasPairFrom(s, 0)
  {
    match FirstSpan(s)
    case Some((i, j)) => Some(s[i..j + 1])
    case None => None
  }

  /** The leftmost span is unique. */
  lemma LeftmostSpanUnique(s: string, i: nat, j: nat, i': nat, j': nat)
    requires LeftmostSpan(s, i, j) && LeftmostSpan(s, i', j')
    ensures i == i' && j == j'
  {
    assert s[i] == '{' && s[i'] == '{' && s[j] == '}' && s[j'] == '}';
  }

  ghost predicate NoBraces(s: string)
  {
    forall k :: 0 <= k < |s| ==> s[k] != '{' && s[k] != '}'
  }

  /** Where the characters of `a + m + b` come from. */
  lemma ConcatAt(a: string, m: string, b: string, p: nat)
    requires p < |a + m + b|
    ensures p < |a| ==> (a + m + b)[p] == a[p]
    ensures |a| <= p < |a| + |m| ==> (a + m + b)[p] == m[p - |a|]
    ensures |a| + |m| <= p ==> (a + m + b)[p] == b[p - |a| - |m|]
  {
  }

  /** `m` sits at offset `n` of `s`, and `s` has no brace outside it. */
  ghost predicate EmbeddedAt(s: string, m: string, n: nat)
  {
    && n + |m| <= |s|
    && (forall p :: 0 <= p < |m| ==> s[n + p] == m[p])
    && (forall p :: 0 <= p < n ==> s[p] != '{' && s[p] != '}')
    && (forall p :: n + |m| <= p < |s| ==> s[p] != '{' && s[p] != '}')
  }

  lemma SpanShift(s: string, m: string, n: nat, i: nat, j: nat)
    requires EmbeddedAt(s, m, n) && LeftmostSpan(m, i, j)
    ensures LeftmostSpan(s, n + i, n + j)
  {
    assert s[n + i] == m[i] && s[n + j] == m[j];
    forall k | 0 <= k < n + i ensures s[k] != '{' {
      if k >= n { assert s[n + (k - n)] == m[k - n]; }
    }
    forall k | n + i < k < n + j ensures s[k] != '}' {
      assert s[n + (k - n)] == m[k - n];
    }
  }

  /** A `{`...`}` pair exists in `s` exactly when one exists in `m`. */
  lemma PairShift(s: string, m: string, n: nat)
    requires EmbeddedAt(s, m, n)
    ensures HasPairFrom(s, 0) == HasPairFrom(m, 0)
  {
    if HasPairFrom(m, 0) {
      var i, j :| 0 <= i && Pair(m, i, j);
      assert s[n + i] == m[i];
      assert s[n + j] == m[j];
      assert Pair(s, n + i, n + j);
    }
    if HasPairFrom(s, 0) {
      var i, j :| 0 <= i && Pair(s, i, j);
      assert n <= i < n + |m| && n <= j < n + |m|;
      assert s[n + (i - n)] == m[i - n] && s[n + (j - n)] == m[j - n];
      assert Pair(m, i - n, j - n);
    }
  }

  /** `m` sits inside `a + m + b` at offset `|a|`, with the braceless `a` and `b` around it. */
  lemma EmbeddedInConcat(a: string, m: string, b: string)
    requires NoBraces(a) && NoBraces(b)
    ensures EmbeddedAt(a + m + b, m, |a|)
  {
    var s := a + m + b;
    forall p | 0 <= p < |s|
      ensures p < |a| ==> s[p] != '{' && s[p] != '}'
      ensures |a| <= p < |a| + |m| ==> s[p] == m[p - |a|]
      ensures |a| + |m| <= p ==> s[p] != '{' && s[p] != '}'
    {
      ConcatAt(a, m, b, p);
    }
  }

  /** A slice of the embedded string is the same slice of the outer string, moved by the offset. */
  lemma SliceShift(s: string, m: string, n: nat, lo: nat, hi: nat)
    requires EmbeddedAt(s, m, n) && lo <= hi <= |m|
    ensures s[n + lo..n + hi] == m[lo..hi]
  {
    forall p | 0 <= p < hi - lo
      ensures s[n + lo..n + hi][p] == m[lo..hi][p]
    {
      assert s[n + (lo + p)] == m[lo + p];
    }
  }

  /** Text without braces around a string does not change its first brace block. */
  lemma BlockIgnoresBracelessEdges(a: string, m: string, b: string)
    requires NoBraces(a) && NoBraces(b)
    ensures FirstBraceBlock(a + m + b) == FirstBraceBlock(m)
  {
    var s := a + m + b;
    var sm := FirstSpan(m);
    if sm.Some? {
      var i, j := sm.value.0, sm.value.1;
      BlockOfLeftmost(m, i, j);
      EmbeddedInConcat(a, m, b);
      BlockShift(s, m, |a|, i, j);
      SliceShift(s, m, |a|, i, j + 1);
    } else {
      EmbeddedInConcat(a, m, b);
      NoBlockShift(s, m, |a|);
    }
  }

  /** An embedded string without a block leaves the outer string without one. */
  lemma NoBlockShift(s: string, m: string, n: nat)
    requires EmbeddedAt(s, m, n) && FirstBraceBlock(m).None?
    ensures FirstBraceBlock(s).None?
  {
    PairShift(s, m, n);
  }

  /** The block of the embedded string, moved by the offset, is the block of the outer string. */
  lemma BlockShift(s: string, m: string, n: nat, i: nat, j: nat)
    requires EmbeddedAt(s, m, n) && LeftmostSpan(m, i, j)
    ensures n + j < |s| && FirstBraceBlock(s) == Some(s[n + i..n + j + 1])
  {
    SpanShift(s, m, n, i, j);
    BlockOfLeftmost(s, n + i, n + j);
  }

  /** The leftmost span is the one the scan finds, and the block is its text, both braces included. */
  lemma BlockOfLeftmost(s: string, i: nat, j: nat)
    requires LeftmostSpan(s, i, j)
    ensures FirstBraceBlock(s) == Some(s[i..j + 1])
  {
    assert Pair(s, i, j);
    var r := FirstSpan(s);
    LeftmostSpanUnique(s, r.value.0, r.value.1, i, j);
  }

  /** A string is its head, a middle slice and its tail. */
  lemma SplitThree(s: string, i: nat, j: nat)
    requires i <= j <= |s|
    ensures s == s[..i] + s[i..j] + s[j..]
  {
  }

  /** Stripping characters other than braces from both ends keeps the first brace block. */
  lemma StripKeepsBlock(s: string, r: string, drop: char -> bool)
    requires Text.StrippedOf(s, r, drop)
    requires !drop('{') && !drop('}')
    ensures FirstBraceBlock(r) == FirstBraceBlock(s)
  {
    var i, j :| 0 <= i <= j <= |s| && r == s[i..j]
      && Text.AllDropped(s[..i], drop) && Text.AllDropped(s[j..], drop);
    SplitThree(s, i, j);
    BlockIgnoresBracelessEdges(s[..i], r, s[j..]);
  }

  /** A block begins with `{` and ends with `}`, so `strip()` leaves it as it is. */
  lemma StripOfBlock(s: string)
    ensures FirstBraceBlock(s).Some? ==> Text.Strip(FirstBraceBlock(s).value) == FirstBraceBlock(s).value
  {
    if FirstBraceBlock(s).None? { return; }
    var b := FirstBraceBlock(s).value;
    assert Text.LeadingRun(b, Text.IsSpace) == 0;
    assert b[0..] == b;
    assert Text.TrailingCut(b, Text.IsSpace) == |b|;
    assert b[0..|b|] == b;
  }
}
