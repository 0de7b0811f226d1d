/** Paths as text: `new File(dir, child)`, `String.lastIndexOf` and `File.getName`. */
module Paths {

  type Path = string

  /** `new File(dir, rel)`: the child path, joined with one separator. */
  function Join(dir: Path, rel: Path): Path {
    dir + "/" + rel
  }

  /** `s.lastIndexOf(c)`: the index of the last occurrence of `c`, or -1 when there is none. */
  function LastIndexOf(s: string, c: char): (r: int)
    ensures -1 <= r < |s|
    ensures r >= 0 ==> s[r] == c
    ensures forall i :: r < i < |s| ==> s[i] != c
    decreases |s|
  {
    if s == [] then -1
    else if s[|s| - 1] == c then |s| - 1
    else LastIndexOf(s[..|s| - 1], c)
  }

  /** `p.substring(p.lastIndexOf("/") + 1)`: the part of `p` after its last '/',
      which is also what `File.getName` returns. It is the longest suffix of `p`
      without a '/'. */
  function FileName(p: Path): (r: string)
    ensures |r| <= |p| && p[|p| - |r|..] == r
    ensures '/' !in r
    ensures |r| == |p| || p[|p| - |r| - 1] == '/'
  {
    p[LastIndexOf(p, '/') + 1..]
  }

  /** The last occurrence in a concatenation lies in the right part when it has one. */
  lemma {:induction false} LastIndexOfAppend(a: string, b: string, c: char)
    ensures LastIndexOf(a + b, c) ==
            if LastIndexOf(b, c) >= 0 then |a| + LastIndexOf(b, c) else LastIndexOf(a, c)
    decreases |b|
  {
    if b == [] {
      assert a + b == a;
    } else if b[|b| - 1] != c {
      assert (a + b)[..|a + b| - 1] == a + b[..|b| - 1];
      LastIndexOfAppend(a, b[..|b| - 1], c);
    }
  }

  /** The name of a joined path is the name of its child part: the copy target
      `new File(root, downloadTo.getName())` depends only on the artifact path. */
  lemma FileNameJoin(dir: Path, rel: Path)
    ensures FileName(Join(dir, rel)) == FileName(rel)
  {
    var a := dir + "/";
    assert Join(dir, rel) == a + rel;
    LastIndexOfAppend(a, rel, '/');
    LastIndexOfAppend(dir, "/", '/');
    if LastIndexOf(rel, '/') >= 0 {
      assert (a + rel)[|a| + LastIndexOf(rel, '/') + 1..] == rel[LastIndexOf(rel, '/') + 1..];
    } else {
      assert (a + rel)[|a|..] == rel;
    }
  }
}
