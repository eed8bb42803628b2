/**
 * The three functions of Python's `os.path` (POSIX flavour) that `get_output_dir`
 * and the output file names use: `isabs`, `dirname` and `join` of two parts.
 */
module PosixPath {
  import Text

  predicate IsSlash(c: char)
  {
    c == '/'
  }

  /** `os.path.isabs`: the path starts with a slash. */
  predicate IsAbs(p: string)
  {
    |p| > 0 && p[0] == '/'
  }

  /** One past the last slash of `p`, or 0 when it has none. */
  function SlashEnd(p: string): (i: nat)
    ensures i <= |p|
    ensures i > 0 ==> p[i - 1] == '/'
    ensures forall k :: i <= k < |p| ==> p[k] != '/'
  {
    if p == [] then 0
    else if p[|p| - 1] == '/' then |p|
    else SlashEnd(p[..|p| - 1])
  }

  /**
   * `os.path.dirname`: everything up to the last slash, with the trailing slashes
   * removed unless it is made of slashes only.
   */
  function DirName(p: string): string
  {
    var head := p[..SlashEnd(p)];
    var cut := Text.TrailingCut(head, IsSlash);
    if cut > 0 then head[..cut] else head
  }

  /** `os.path.join(a, b)`: an absolute `b` replaces `a`; otherwise a slash is put between them unless `a` is empty or ends with one. */
  function Join(a: string, b: string): string
  {
    if IsAbs(b) then b
    else if a == [] || a[|a| - 1] == '/' then a + b
    else a + "/" + b
  }

  /** A name without slashes. */
  ghost predicate PlainName(n: string)
  {
    n != [] && forall k :: 0 <= k < |n| ==> n[k] != '/'
  }

  /** `dirname` gives the empty path, slashes only, or a path that does not end with a slash. */
  lemma DirNameShape(p: string)
    ensures var d := DirName(p);
      d == [] || d[|d| - 1] != '/' || forall k :: 0 <= k < |d| ==> d[k] == '/'
  {
    var head := p[..SlashEnd(p)];
    var cut := Text.TrailingCut(head, IsSlash);
    if cut == 0 {
      assert head[cut..] == head;
    }
  }

  /** A name without slashes does not move the last slash. */
  lemma {:induction false} SlashEndAppend(p: string, n: string)
    requires forall k :: 0 <= k < |n| ==> n[k] != '/'
    ensures SlashEnd(p + n) == SlashEnd(p)
    decreases |n|
  {
    if n != [] {
      var m := n[..|n| - 1];
      assert (p + n)[..|p + n| - 1] == p + m;
      SlashEndAppend(p, m);
    } else {
      assert p + n == p;
    }
  }

  /** The `dirname` of `d/n` is `d` when `d` does not end with a slash. */
  lemma CutAtLastNonSlash(d: string, n: string)
    requires d != [] && d[|d| - 1] != '/' && PlainName(n)
    ensures DirName(d + "/" + n) == d
  {
    var p := d + "/" + n;
    SlashEndAppend(d + "/", n);
    assert SlashEnd(d + "/") == |d| + 1;
    var head := p[..|d| + 1];
    assert head == d + "/";
    var cut := Text.TrailingCut(head, IsSlash);
    assert cut == |d|;
  }

  /** A path of slashes followed by a name has those slashes as its `dirname`. */
  lemma SlashesThenName(d: string, n: string)
    requires d != [] && (forall k :: 0 <= k < |d| ==> d[k] == '/') && PlainName(n)
    ensures DirName(d + n) == d
  {
    SlashEndAppend(d, n);
    var head := (d + n)[..|d|];
    assert head == d;
    assert Text.TrailingCut(head, IsSlash) == 0 by {
      var cut := Text.TrailingCut(head, IsSlash);
      if cut > 0 {
        assert IsSlash(head[cut - 1]);
      }
    }
  }

  /**
   * Joining a plain name onto a `dirname` and taking the `dirname` again gives the
   * same directory: the joined path is an entry of that directory.
   */
  lemma JoinedIsBeside(p: string, n: string)
    requires PlainName(n)
    ensures DirName(Join(DirName(p), n)) == DirName(p)
  {
    var d := DirName(p);
    DirNameShape(p);
    assert !IsAbs(n);
    if d == [] {
      assert Join(d, n) == n;
      SlashEndAppend([], n);
      assert [] + n == n;
    } else if d[|d| - 1] != '/' {
      CutAtLastNonSlash(d, n);
    } else {
      SlashesThenName(d, n);
    }
  }
}
