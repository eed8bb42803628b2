/**
 * `sessions.sort(key=lambda x: x[0])` in `convert_to_chat_and_qa_format`: a stable
 * sort of the (formatted time, dialogue) pairs by the time string, compared as
 * Python compares `str` values, that is lexicographically and not by date.
 */
module SessionSort {
  import opened Json
  import Text

  /** One collected session: its formatted date line and its dialogue value. */
  datatype Session = Session(time: string, dialog: Value)

  /** Every session's time is at most every later session's time. */
  ghost predicate SortedByTime(s: seq<Session>)
  {
    forall i, j :: 0 <= i < j < |s| ==> Text.LexLe(s[i].time, s[j].time)
  }

  /** `x` put after `p`, then moved left past every session whose time is greater. */
  function Insert(p: seq<Session>, x: Session): (r: seq<Session>)
    ensures |r| == |p| + 1
  {
    if p == [] || !Text.LexLess(x.time, p[|p| - 1].time) then p + [x]
    else Insert(p[..|p| - 1], x) + [p[|p| - 1]]
  }

  /** The sessions in the order the sort leaves them. */
  function SortByTime(s: seq<Session>): (r: seq<Session>)
    ensures |r| == |s|
  {
    if s == [] then [] else Insert(SortByTime(s[..|s| - 1]), s[|s| - 1])
  }

  /** The sessions with time `t`, in their order. */
  function WithTime(s: seq<Session>, t: string): seq<Session>
  {
    if s == [] then []
    else WithTime(s[..|s| - 1], t) + (if s[|s| - 1].time == t then [s[|s| - 1]] else [])
  }

  lemma LexLeTransitive(a: string, b: string, c: string)
    requires Text.LexLe(a, b) && Text.LexLe(b, c)
    ensures Text.LexLe(a, c)
  {
    if a != b && b != c {
      Text.LexLessTransitive(a, b, c);
    }
  }

  /** A time that is not below another is at least it: the order is total. */
  lemma NotLessIsLe(a: string, b: string)
    requires !Text.LexLess(a, b)
    ensures Text.LexLe(b, a)
  {
    Text.LexTotal(a, b);
  }

  /** Inserting keeps every time below a bound that all the inputs are below. */
  lemma {:induction false} InsertBelow(p: seq<Session>, x: Session, b: string)
    requires forall i :: 0 <= i < |p| ==> Text.LexLe(p[i].time, b)
    requires Text.LexLe(x.time, b)
    ensures forall i :: 0 <= i < |p| + 1 ==> Text.LexLe(Insert(p, x)[i].time, b)
  {
    if p != [] && Text.LexLess(x.time, p[|p| - 1].time) {
      InsertBelow(p[..|p| - 1], x, b);
    }
  }

  /** Inserting into a sorted sequence gives a sorted sequence. */
  lemma {:induction false} InsertSorted(p: seq<Session>, x: Session)
    requires SortedByTime(p)
    ensures SortedByTime(Insert(p, x))
  {
    if p == [] {
    } else if !Text.LexLess(x.time, p[|p| - 1].time) {
      var last := p[|p| - 1].time;
      NotLessIsLe(x.time, last);
      forall i | 0 <= i < |p|
        ensures Text.LexLe(p[i].time, x.time)
      {
        if i < |p| - 1 {
          LexLeTransitive(p[i].time, last, x.time);
        }
      }
    } else {
      var init := p[..|p| - 1];
      var last := p[|p| - 1];
      InsertSorted(init, x);
      InsertBelow(init, x, last.time);
      var q := Insert(init, x);
      assert Insert(p, x) == q + [last];
    }
  }

  /** The sort leaves the sessions in ascending order of time. */
  lemma {:induction false} SortSorted(s: seq<Session>)
    ensures SortedByTime(SortByTime(s))
  {
    if s != [] {
      SortSorted(s[..|s| - 1]);
      InsertSorted(SortByTime(s[..|s| - 1]), s[|s| - 1]);
    }
  }

  lemma WithTimeSnoc(s: seq<Session>, x: Session, t: string)
    ensures WithTime(s + [x], t) == WithTime(s, t) + (if x.time == t then [x] else [])
  {
    assert (s + [x])[..|s|] == s;
  }

  /** Inserting `x` adds it after the sessions of its own time and changes no other time's sessions. */
  lemma {:induction false} InsertWithTime(p: seq<Session>, x: Session, t: string)
    ensures WithTime(Insert(p, x), t) == WithTime(p, t) + (if x.time == t then [x] else [])
  {
    if p == [] || !Text.LexLess(x.time, p[|p| - 1].time) {
      WithTimeSnoc(p, x, t);
    } else {
      var init := p[..|p| - 1];
      var last := p[|p| - 1];
      InsertWithTime(init, x, t);
      WithTimeSnoc(Insert(init, x), last, t);
      assert p == init + [last];
      WithTimeSnoc(init, last, t);
      Text.LexLessIrreflexive(x.time);
    }
  }

  /** Stability: the sessions of any one time keep their order. */
  lemma {:induction false} SortStable(s: seq<Session>, t: string)
    ensures WithTime(SortByTime(s), t) == WithTime(s, t)
  {
    if s != [] {
      var init := s[..|s| - 1];
      SortStable(init, t);
      InsertWithTime(SortByTime(init), s[|s| - 1], t);
    }
  }

  /** A non-empty sequence's sessions are those of its front and its last one. */
  lemma MultisetSnoc(s: seq<Session>)
    requires s != []
    ensures multiset(s) == multiset(s[..|s| - 1]) + multiset{s[|s| - 1]}
  {
    assert s == s[..|s| - 1] + [s[|s| - 1]];
  }

  lemma {:induction false} InsertPermutes(p: seq<Session>, x: Session)
    ensures multiset(Insert(p, x)) == multiset(p) + multiset{x}
  {
    if p != [] && Text.LexLess(x.time, p[|p| - 1].time) {
      var init := p[..|p| - 1];
      InsertPermutes(init, x);
      MultisetSnoc(p);
    }
  }

  /** The sort neither adds nor drops a session. */
  lemma {:induction false} SortPermutes(s: seq<Session>)
    ensures multiset(SortByTime(s)) == multiset(s)
  {
    if s != [] {
      var init := s[..|s| - 1];
      SortPermutes(init);
      InsertPermutes(SortByTime(init), s[|s| - 1]);
      MultisetSnoc(s);
    }
  }

  /** `format_datetime` of 10:00 am on 5 January 2023. */
  function JanuaryTime(): string
  {
    "January 05, 2023 at 10:00 AM"
  }

  /** `format_datetime` of 10:00 am on 5 April 2023. */
  function AprilTime(): string
  {
    "April 05, 2023 at 10:00 AM"
  }

  /**
   * The times are compared as text, so month names sort alphabetically: a session
   * of January comes after one of April of the same year.
   */
  lemma MonthNamesSortAlphabetically(jan: Value, apr: Value)
    ensures SortByTime([Session(JanuaryTime(), jan), Session(AprilTime(), apr)])
            == [Session(AprilTime(), apr), Session(JanuaryTime(), jan)]
  {
    var early := Session(JanuaryTime(), jan);
    var late := Session(AprilTime(), apr);
    assert Text.LexLess(late.time, early.time);
    assert [early, late][..1] == [early] && [early][..0] == [];
    assert SortByTime([early]) == [early];
    assert Insert([early], late) == Insert([], late) + [early];
  }

  /**
   * Where the shifting loop stops: `x` goes right after the sessions not moved,
   * when every session it moved past has a greater time.
   */
  lemma {:induction false} InsertPlace(p: seq<Session>, x: Session, j: nat)
    requires j <= |p| && (j == 0 || !Text.LexLess(x.time, p[j - 1].time))
    requires forall k :: j <= k < |p| ==> Text.LexLess(x.time, p[k].time)
    ensures Insert(p, x) == p[..j] + [x] + p[j..]
    decreases |p|
  {
    if j < |p| {
      var init, last := p[..|p| - 1], p[|p| - 1];
      InsertPlace(init, x, j);
      assert Insert(p, x) == Insert(init, x) + [last];
      ShiftedTail(p, x, j);
    } else {
      assert p[..j] == p;
    }
  }

  /** The sequence step of `InsertPlace`: the last session stays behind the part moved past. */
  lemma ShiftedTail(p: seq<Session>, x: Session, j: nat)
    requires j < |p|
    ensures (p[..|p| - 1][..j] + [x] + p[..|p| - 1][j..]) + [p[|p| - 1]] == p[..j] + [x] + p[j..]
  {
    var init := p[..|p| - 1];
    assert init[..j] == p[..j];
    assert p[j..] == init[j..] + [p[|p| - 1]];
  }

  /** The array after the shifting loop: `x` at `j`, the sessions before it unmoved, those after it one place right. */
  lemma ShiftedIsInsert(b: seq<Session>, p: seq<Session>, x: Session, j: nat)
    requires j <= |p| < |b| && b[j] == x
    requires j == 0 || !Text.LexLess(x.time, p[j - 1].time)
    requires forall k :: j <= k < |p| ==> Text.LexLess(x.time, p[k].time)
    requires forall k :: 0 <= k < j ==> b[k] == p[k]
    requires forall k :: j < k <= |p| ==> b[k] == p[k - 1]
    ensures b[..|p| + 1] == Insert(p, x)
  {
    InsertPlace(p, x, j);
    var q := p[..j] + [x] + p[j..];
    forall k | 0 <= k <= |p|
      ensures b[k] == q[k]
    {
      if k < j {
        assert q[k] == p[k];
      } else if k > j {
        assert q[k] == p[k - 1];
      }
    }
    assert b[..|p| + 1] == q;
  }

  /**
   * The array `b`, once `old` held `c`, while `x` (once `c[i]`) moves left: the
   * sessions before `j` unmoved, those from `j` to `i - 1` one place right and all
   * with greater times, and those after `i` untouched.
   */
  ghost predicate Shifting(b: seq<Session>, c: seq<Session>, p: seq<Session>, x: Session, i: nat, j: nat)
  {
    && |b| == |c| && i < |b| && j <= i && p == c[..i]
    && (forall k :: 0 <= k < j ==> b[k] == p[k])
    && (forall k :: j < k <= i ==> b[k] == p[k - 1])
    && (forall k :: i < k < |b| ==> b[k] == c[k])
    && (forall k :: j <= k < i ==> Text.LexLess(x.time, p[k].time))
  }

  /** Moving the session at `j - 1` one place right, past a greater time, keeps the shape. */
  lemma ShiftStep(b: seq<Session>, c: seq<Session>, p: seq<Session>, x: Session, i: nat, j: nat)
    requires Shifting(b, c, p, x, i, j) && j > 0 && Text.LexLess(x.time, b[j - 1].time)
    ensures Shifting(b[j := b[j - 1]], c, p, x, i, j - 1)
  {
  }

  /** Where the shifting stops, putting `x` down gives `Insert` on the prefix and leaves the rest. */
  lemma ShiftDone(b: seq<Session>, c: seq<Session>, p: seq<Session>, x: Session, i: nat, j: nat)
    requires Shifting(b, c, p, x, i, j) && (j == 0 || !Text.LexLess(x.time, b[j - 1].time))
    ensures b[j := x][..i + 1] == Insert(p, x)
    ensures forall k :: i < k < |b| ==> b[j := x][k] == c[k]
  {
    ShiftedIsInsert(b[j := x], p, x, j);
  }

  /** One pass of the insertion sort: `a[i]` moves left past the greater times in the sorted `a[..i]`. */
  method InsertLast(a: array<Session>, i: nat)
    requires i < a.Length
    modifies a
    ensures a[..i + 1] == Insert(old(a[..i]), old(a[i]))
    ensures forall k :: i < k < a.Length ==> a[k] == old(a[k])
  {
    ghost var c := a[..];
    ghost var p := a[..i];
    var x := a[i];
    var j := i;
    while j > 0 && Text.LexLess(x.time, a[j - 1].time)
      invariant Shifting(a[..], c, p, x, i, j)
    {
      ghost var b := a[..];
      a[j] := a[j - 1];
      assert a[..] == b[j := b[j - 1]];
      ShiftStep(b, c, p, x, i, j);
      j := j - 1;
    }
    ghost var b := a[..];
    a[j] := x;
    assert a[..] == b[j := x];
    ShiftDone(b, c, p, x, i, j);
  }

  /** `list.sort` on the collected sessions: an insertion sort in place. */
  method SortSessions(a: array<Session>)
    modifies a
    ensures a[..] == SortByTime(old(a[..]))
  {
    ghost var s := a[..];
    var i := 0;
    while i < a.Length
      invariant 0 <= i <= a.Length
      invariant a[..i] == SortByTime(s[..i])
      invariant forall k :: i <= k < a.Length ==> a[k] == s[k]
    {
      InsertLast(a, i);
      assert s[..i + 1] == s[..i] + [s[i]];
      i := i + 1;
    }
    assert s[..a.Length] == s;
  }
}
