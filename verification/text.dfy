/**
 * The Python string operations the scripts rely on: `str.strip`, `startswith`,
 * `endswith`, `"sep".join`, `str(n)` for integers and string comparison.
 */
module Text {

  /** Python's `str.isspace`: the characters `str.strip()` removes when given no argument. */
  predicate IsSpace(c: char)
  {
    || ('\U{0009}' <= c <= '\U{000D}')
    || ('\U{001C}' <= c <= '\U{0020}')
    || c == '\U{0085}' || c == '\U{00A0}' || c == '\U{1680}'
    || ('\U{2000}' <= c <= '\U{200A}')
    || c == '\U{2028}' || c == '\U{2029}' || c == '\U{202F}' || c == '\U{205F}' || c == '\U{3000}'
  }

  ghost predicate AllDropped(s: string, drop: char -> bool)
  {
    forall k :: 0 <= k < |s| ==> drop(s[k])
  }

  /** Number of leading characters of `s` that `drop` accepts. */
  function LeadingRun(s: string, drop: char -> bool): (i: nat)
    ensures i <= |s|
    ensures AllDropped(s[..i], drop)
    ensures i < |s| ==> !drop(s[i])
  {
    if s == [] || !drop(s[0]) then 0
    else
      var i := 1 + LeadingRun(s[1..], drop);
      assert s[..i] == [s[0]] + s[1..][..i - 1];
      i
  }

  /** Length of `s` once its trailing characters accepted by `drop` are cut off. */
  function TrailingCut(s: string, drop: char -> bool): (j: nat)
    ensures j <= |s|
    ensures AllDropped(s[j..], drop)
    ensures j > 0 ==> !drop(s[j - 1])
  {
    if s == [] || !drop(s[|s| - 1]) then |s|
    else
      var j := TrailingCut(s[..|s| - 1], drop);
      assert s[j..] == s[..|s| - 1][j..] + [s[|s| - 1]];
      j
  }

  /** `r` is `s` with every leading and trailing character accepted by `drop` removed, and no more. */
  ghost predicate StrippedOf(s: string, r: string, drop: char -> bool)
  {
    exists i, j :: 0 <= i <= j <= |s| && r == s[i..j]
      && AllDropped(s[..i], drop) && AllDropped(s[j..], drop)
      && (r != [] ==> !drop(r[0]) && !drop(r[|r| - 1]))
  }

  /** Python's `s.strip(chars)`, with the character set given as a predicate. */
  function StripBy(s: string, drop: char -> bool): (r: string)
    ensures StrippedOf(s, r, drop)
    ensures |r| <= |s|
  {
    var i := LeadingRun(s, drop);
    var j := TrailingCut(s[i..], drop);
    assert s[i..][j..] == s[i + j..];
    assert s[i..][..j] == s[i..i + j];
    s[i..i + j]
  }

  /** Python's `s.strip()`. */
  function Strip(s: string): (r: string)
    ensures StrippedOf(s, r, IsSpace)
  {
    StripBy(s, IsSpace)
  }

  /** Python's `s.startswith(p)`. */
  predicate StartsWith(s: string, p: string)
  {
    p <= s
  }

  /** Python's `s.endswith(p)`. */
  predicate EndsWith(s: string, p: string)
  {
    |p| <= |s| && s[|s| - |p|..] == p
  }

  /** Python's `sep.join(parts)`. */
  function Join(parts: seq<string>, sep: string): string
  {
    if |parts| == 0 then ""
    else if |parts| == 1 then parts[0]
    else parts[0] + sep + Join(parts[1..], sep)
  }

  /** Joining one more part at the end adds a separator and that part. */
  lemma {:induction false} JoinSnoc(parts: seq<string>, p: string, sep: string)
    requires |parts| > 0
    ensures Join(parts + [p], sep) == Join(parts, sep) + sep + p
  {
    if |parts| == 1 {
      assert parts + [p] == [parts[0], p];
    } else {
      assert (parts + [p])[1..] == parts[1..] + [p];
      JoinSnoc(parts[1..], p, sep);
    }
  }

  /** The position at which part `k` starts in `Join(parts, sep)`. */
  function JoinOffset(parts: seq<string>, sep: string, k: nat): nat
    requires k <= |parts|
  {
    if k == 0 then 0 else |parts[0]| + |sep| + JoinOffset(parts[1..], sep, k - 1)
  }

  /** Every part stands at its offset in the joined string, in input order. */
  lemma {:induction false} JoinPartAt(parts: seq<string>, sep: string, k: nat)
    requires k < |parts|
    ensures JoinOffset(parts, sep, k) + |parts[k]| <= |Join(parts, sep)|
    ensures Join(parts, sep)[JoinOffset(parts, sep, k)..JoinOffset(parts, sep, k) + |parts[k]|] == parts[k]
  {
    if k == 0 {
      if |parts| > 1 {
        assert Join(parts, sep) == parts[0] + (sep + Join(parts[1..], sep));
      }
    } else {
      JoinPartAt(parts[1..], sep, k - 1);
      var rest := Join(parts[1..], sep);
      var off := JoinOffset(parts[1..], sep, k - 1);
      var pre := parts[0] + sep;
      assert Join(parts, sep) == pre + rest;
      assert (pre + rest)[|pre| + off..|pre| + off + |parts[k]|] == rest[off..off + |parts[k]|];
    }
  }

  /** Later parts start strictly after earlier parts end. */
  lemma {:induction false} JoinOffsetsOrdered(parts: seq<string>, sep: string, k: nat)
    requires k + 1 < |parts|
    ensures JoinOffset(parts, sep, k) + |parts[k]| + |sep| == JoinOffset(parts, sep, k + 1)
  {
    if k > 0 {
      JoinOffsetsOrdered(parts[1..], sep, k - 1);
    }
  }

  /** Wrapping a join in a head and a tail: the head and tail stay at the ends, and part `k` moves by `|head|`. */
  lemma FramedJoinAt(head: string, parts: seq<string>, sep: string, tail: string, k: nat)
    requires k < |parts|
    ensures var p := head + Join(parts, sep) + tail;
      && StartsWith(p, head)
      && EndsWith(p, tail)
      && |head| + JoinOffset(parts, sep, k) + |parts[k]| + |tail| <= |p|
      && p[|head| + JoinOffset(parts, sep, k)..|head| + JoinOffset(parts, sep, k) + |parts[k]|] == parts[k]
  {
    var body := Join(parts, sep);
    var p := head + body + tail;
    JoinPartAt(parts, sep, k);
    var off := JoinOffset(parts, sep, k);
    assert p[|head| + off..|head| + off + |parts[k]|] == body[off..off + |parts[k]|];
    assert p[..|head|] == head;
    assert p[|p| - |tail|..] == tail;
  }

  function DigitChar(d: nat): (c: char)
    requires d < 10
    ensures '0' <= c <= '9'
  {
    ('0' as int + d) as char
  }

  /** Python's `str(n)` for a non-negative integer. */
  function Decimal(n: nat): (r: string)
    ensures |r| >= 1
    ensures forall k :: 0 <= k < |r| ==> '0' <= r[k] <= '9'
    ensures n >= 10 ==> |r| >= 2
    decreases n
  {
    if n < 10 then [DigitChar(n)] else Decimal(n / 10) + [DigitChar(n % 10)]
  }

  /** Python's `str(i)` for any integer. */
  function IntToString(i: int): string
  {
    if i < 0 then "-" + Decimal(-i) else Decimal(i)
  }

  lemma DigitCharInjective(x: nat, y: nat)
    requires x < 10 && y < 10 && DigitChar(x) == DigitChar(y)
    ensures x == y
  {
  }

  /** Distinct numbers have distinct decimal spellings: `str` is injective on `nat`. */
  lemma {:induction false} DecimalInjective(a: nat, b: nat)
    requires Decimal(a) == Decimal(b)
    ensures a == b
    decreases a
  {
    if a < 10 && b < 10 {
      assert Decimal(a)[0] == Decimal(b)[0];
      DigitCharInjective(a, b);
    } else if a >= 10 && b >= 10 {
      var pa, pb := Decimal(a / 10), Decimal(b / 10);
      assert Decimal(a) == pa + [DigitChar(a % 10)];
      assert Decimal(b) == pb + [DigitChar(b % 10)];
      assert |pa| == |pb|;
      assert pa == Decimal(a)[..|pa|] == Decimal(b)[..|pb|] == pb;
      assert Decimal(a)[|pa|] == DigitChar(a % 10);
      assert Decimal(b)[|pb|] == DigitChar(b % 10);
      DigitCharInjective(a % 10, b % 10);
      DecimalInjective(a / 10, b / 10);
    } else {
      assert false;
    }
  }

  /** Python's `a < b` on `str`: lexicographic by code point. */
  predicate LexLess(a: string, b: string)
  {
    if a == [] then b != []
    else if b == [] then false
    else if a[0] != b[0] then a[0] < b[0]
    else LexLess(a[1..], b[1..])
  }

  /** Python's `a <= b` on `str`. */
  predicate LexLe(a: string, b: string)
  {
    a == b || LexLess(a, b)
  }

  lemma {:induction false} LexLessIrreflexive(a: string)
    ensures !LexLess(a, a)
  {
    if a != [] {
      LexLessIrreflexive(a[1..]);
    }
  }

  /** Any two strings are comparable: the order is total. */
  lemma {:induction false} LexTotal(a: string, b: string)
    ensures a == b || LexLess(a, b) || LexLess(b, a)
  {
    if a != [] && b != [] && a[0] == b[0] {
      LexTotal(a[1..], b[1..]);
      if a[1..] == b[1..] {
        assert a == [a[0]] + a[1..] && b == [b[0]] + b[1..];
      }
    }
  }

  lemma {:induction false} LexLessAsymmetric(a: string, b: string)
    requires LexLess(a, b)
    ensures !LexLess(b, a)
  {
    if a != [] && b != [] && a[0] == b[0] {
      LexLessAsymmetric(a[1..], b[1..]);
    }
  }

  lemma {:induction false} LexLessTransitive(a: string, b: string, c: string)
    requires LexLess(a, b) && LexLess(b, c)
    ensures LexLess(a, c)
  {
    if a != [] && b != [] && c != [] && a[0] == b[0] && b[0] == c[0] {
      LexLessTransitive(a[1..], b[1..], c[1..]);
    }
  }
}
