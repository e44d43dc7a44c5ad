/** The two functions of Python's `posixpath` that the pipeline relies on. */
module PosixPath {

  const Sep: char := '/'

  /** A directory path that `Join` extends with exactly one separator. */
  predicate PlainDir(a: string)
  {
    a != [] && a[|a| - 1] != Sep
  }

  /** A single, non-empty path component. */
  predicate Component(b: string)
  {
    b != [] && Sep !in b
  }

  /** `os.path.join(a, b)`: an absolute `b` replaces `a`; otherwise `b` is
      appended to `a`, with a separator between them unless `a` is empty or
      already ends with one. `os.path.join(a, b, c)` is `Join(Join(a, b), c)`. */
  function Join(a: string, b: string): string
  {
    if b != [] && b[0] == Sep then b
    else if a == [] || a[|a| - 1] == Sep then a + b
    else a + [Sep] + b
  }

  /** `b` always ends the joined path; a relative `b` keeps `a` in front of it,
      separated by exactly one separator when `a` is a plain directory. */
  lemma JoinShape(a: string, b: string)
    ensures var r := Join(a, b);
      |b| <= |r| && r[|r| - |b|..] == b &&
      ((b == [] || b[0] != Sep) ==> a <= r) &&
      (PlainDir(a) && Component(b) ==> r == a + [Sep] + b)
  {
  }

  /** `p.rfind(Sep) + 1`: where the last component of `p` begins. */
  function NameStart(p: string): (k: nat)
    ensures k <= |p|
    ensures forall j :: k <= j < |p| ==> p[j] != Sep
    ensures k > 0 ==> p[k - 1] == Sep
    decreases |p|
  {
    if p == [] then 0
    else if p[|p| - 1] == Sep then |p|
    else NameStart(p[..|p| - 1])
  }

  /** `os.path.basename(p)`: everything after the last separator. */
  function Basename(p: string): (r: string)
  {
    p[NameStart(p)..]
  }

  /** The name a path was joined from is what `Basename` gives back. */
  lemma BasenameOfJoin(a: string, b: string)
    requires Component(b)
    ensures Basename(Join(a, b)) == b
  {
    var p := Join(a, b);
    JoinShape(a, b);
    var k := NameStart(p);
    var m := |p| - |b|;
    assert p[m..] == b;
    assert m == 0 || p[m - 1] == Sep;
    assert forall j :: m <= j < |p| ==> p[j] == b[j - m];
    assert k == m;
  }

  /** A path that starts with a component is split unambiguously at the
      separator that follows it. */
  lemma SplitAtFirstSep(s1: string, r1: string, s2: string, r2: string)
    requires Sep !in s1 && Sep !in s2
    requires s1 + [Sep] + r1 == s2 + [Sep] + r2
    ensures s1 == s2 && r1 == r2
  {
    var t := s1 + [Sep] + r1;
    assert t[|s1|] == Sep && t[|s2|] == Sep;
    assert forall j :: 0 <= j < |s1| ==> t[j] == s1[j];
    assert forall j :: 0 <= j < |s2| ==> t[j] == s2[j];
    assert |s1| == |s2|;
    assert s1 == t[..|s1|] && s2 == t[..|s2|];
    assert r1 == t[|s1| + 1..] && r2 == t[|s2| + 1..];
  }

  /** Under a plain directory, a subdirectory and a file name joined to it
      are recovered from the resulting path. */
  lemma JoinTwiceInjective(a: string, s1: string, n1: string, s2: string, n2: string)
    requires PlainDir(a) && Component(s1) && Component(n1) && Component(s2) && Component(n2)
    requires Join(Join(a, s1), n1) == Join(Join(a, s2), n2)
    ensures s1 == s2 && n1 == n2
  {
    var w := a + [Sep];
    JoinUnderPlainDir(a, s1, n1);
    JoinUnderPlainDir(a, s2, n2);
    CancelPrefix(w, s1 + [Sep] + n1, s2 + [Sep] + n2);
    SplitAtFirstSep(s1, n1, s2, n2);
  }

  lemma JoinUnderPlainDir(a: string, s: string, n: string)
    requires PlainDir(a) && Component(s) && Component(n)
    ensures Join(Join(a, s), n) == (a + [Sep]) + (s + [Sep] + n)
  {
    JoinShape(a, s);
    assert PlainDir(Join(a, s));
    JoinShape(Join(a, s), n);
  }

  lemma CancelPrefix(w: string, t1: string, t2: string)
    requires w + t1 == w + t2
    ensures t1 == t2
  {
    assert t1 == (w + t1)[|w|..];
    assert t2 == (w + t2)[|w|..];
  }

  /** `t in s` for Python strings: `t` occurs somewhere in `s`. */
  predicate Contains(s: string, t: string)
  {
    exists i :: 0 <= i <= |s| - |t| && OccursAt(s, t, i)
  }

  predicate OccursAt(s: string, t: string, i: int)
    requires 0 <= i <= |s| - |t|
  {
    s[i..i + |t|] == t
  }

  /** A substring of a prefix is a substring of the whole. */
  lemma ContainsInExtension(s: string, u: string, t: string)
    requires s <= u && Contains(s, t)
    ensures Contains(u, t)
  {
    var i :| 0 <= i <= |s| - |t| && OccursAt(s, t, i);
    assert u[i..i + |t|] == s[i..i + |t|];
    assert OccursAt(u, t, i);
  }
}
