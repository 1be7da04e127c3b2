/** POSIX path handling as Python's `posixpath` does it: `join`, `basename`,
    `dirname`. Paths are plain strings; nothing is normalised. The facts about
    these functions are lemmas, called where a proof needs them. */
module Paths {
  import opened Text

  type Path = string

  /** Index just past the last '/' of `p`, or 0 when `p` has none. */
  function SlashEnd(p: Path): (i: nat)
    ensures i <= |p|
  {
    if p == [] then 0
    else if p[|p| - 1] == '/' then |p|
    else SlashEnd(p[..|p| - 1])
  }

  /** `p` is nothing but slashes (or empty). */
  predicate AllSlashes(p: Path)
  {
    StripSlashes(p) == []
  }

  /** `p` without its trailing slashes, unless it is nothing but slashes: the
      way `dirname` tidies its result, and the directory a path with trailing
      slashes names. */
  function TrimSlashes(p: Path): Path
  {
    if AllSlashes(p) then p else StripSlashes(p)
  }

  /** `head.rstrip('/')` */
  function StripSlashes(p: Path): (r: Path)
    ensures |r| <= |p|
  {
    if p != [] && p[|p| - 1] == '/' then StripSlashes(p[..|p| - 1]) else p
  }

  /** `os.path.basename(p)`: what follows the last '/'. */
  function Basename(p: Path): Path
  {
    p[SlashEnd(p)..]
  }

  /** `os.path.dirname(p)`: everything up to the last '/', with the trailing
      slashes removed unless nothing but slashes is left. */
  function Dirname(p: Path): Path
  {
    TrimSlashes(p[..SlashEnd(p)])
  }

  /** `os.path.join(a, b)` */
  function JoinPath(a: Path, b: Path): Path
  {
    if |b| > 0 && b[0] == '/' then b
    else if a == [] || a[|a| - 1] == '/' then a + b
    else a + "/" + b
  }

  /** The split point is just after a '/', and no '/' follows it. */
  lemma {:induction false} SlashEndSpec(p: Path)
    ensures SlashEnd(p) == 0 || p[SlashEnd(p) - 1] == '/'
    ensures forall k :: SlashEnd(p) <= k < |p| ==> p[k] != '/'
  {
    if p != [] && p[|p| - 1] != '/' {
      SlashEndSpec(p[..|p| - 1]);
    }
  }

  /** `basename` holds no '/', and it is a suffix of the path that, when
      shorter, follows a '/'. */
  lemma BasenameSpec(p: Path)
    ensures Lacks(Basename(p), '/')
    ensures |Basename(p)| <= |p| && Basename(p) == p[|p| - |Basename(p)|..]
    ensures |Basename(p)| < |p| ==> p[|p| - |Basename(p)| - 1] == '/'
  {
    SlashEndSpec(p);
  }

  lemma {:induction false} StripSlashesSpec(p: Path)
    ensures StripSlashes(p) == p[..|StripSlashes(p)|]
    ensures StripSlashes(p) == [] || StripSlashes(p)[|StripSlashes(p)| - 1] != '/'
    ensures forall k :: |StripSlashes(p)| <= k < |p| ==> p[k] == '/'
  {
    if p != [] && p[|p| - 1] == '/' {
      var q := p[..|p| - 1];
      StripSlashesSpec(q);
      var n := |StripSlashes(q)|;
      assert StripSlashes(p) == StripSlashes(q);
      assert p[..n] == q[..n];
      assert forall k :: n <= k < |p| ==> p[k] == '/' by {
        forall k | n <= k < |p|
          ensures p[k] == '/'
        {
          if k < |q| {
            assert p[k] == q[k];
          }
        }
      }
    }
  }

  /** `dirname` is empty exactly for a path without '/', it never ends in '/'
      unless it is all slashes, and it is shorter than a path that does not
      end in '/'. */
  lemma DirnameSpec(p: Path)
    ensures Dirname(p) == [] <==> Lacks(p, '/')
    ensures Dirname(p) != [] && !AllSlashes(Dirname(p)) ==> Dirname(p)[|Dirname(p)| - 1] != '/'
    ensures p != [] && p[|p| - 1] != '/' ==> |Dirname(p)| < |p|
  {
    SlashEndSpec(p);
    var head := p[..SlashEnd(p)];
    StripSlashesSpec(head);
    if p != [] && p[|p| - 1] != '/' {
      assert SlashEnd(p) < |p|;
    }
  }

  /** A name without '/' appended to a directory ending in '/' is that
      directory's child: its basename is the name and its dirname the
      directory's own. */
  lemma {:induction false} ChildOf(d: Path, name: Path)
    requires |d| > 0 && d[|d| - 1] == '/' && Lacks(name, '/')
    ensures SlashEnd(d + name) == |d|
    ensures Basename(d + name) == name
    ensures Dirname(d + name) == Dirname(d)
    decreases |name|
  {
    var p := d + name;
    if name == [] {
      assert p == d;
    } else {
      assert p[|p| - 1] == name[|name| - 1];
      assert p[..|p| - 1] == d + name[..|name| - 1];
      ChildOf(d, name[..|name| - 1]);
    }
    assert (d + name)[..|d|] == d;
    assert d[..SlashEnd(d)] == d;
  }

  /** The dirname of a path ending in '/' is the path with its trailing
      slashes removed. */
  lemma DirnameOfDir(d: Path)
    requires d != [] && d[|d| - 1] == '/'
    ensures Dirname(d) == TrimSlashes(d)
  {
    assert d[..SlashEnd(d)] == d;
  }

  /** The dirname of a directory, a '/' and a name without '/' is the directory. */
  lemma DirnameOfChild(dir: Path, name: Path)
    requires dir != [] && dir[|dir| - 1] != '/' && Lacks(name, '/')
    ensures Dirname(dir + "/" + name) == dir
  {
    ChildOf(dir + "/", name);
    DirnameOfDir(dir + "/");
    assert (dir + "/")[..|dir|] == dir;
    assert StripSlashes(dir) == dir;
    assert StripSlashes(dir + "/") == dir;
  }

  /** A dirname that is more than slashes is followed, in the path, by a '/'. */
  lemma DirnamePrefix(p: Path)
    requires Dirname(p) != [] && !AllSlashes(Dirname(p))
    ensures StartsWith(p, Dirname(p) + "/")
  {
    SlashEndSpec(p);
    var head := p[..SlashEnd(p)];
    StripSlashesSpec(head);
    var n := |Dirname(p)|;
    assert Dirname(p) == StripSlashes(head);
    assert n < |head|;
    assert p[..n + 1] == head[..n] + [head[n]];
  }

  lemma LacksConcat(a: string, b: string, c: char)
    requires Lacks(a, c) && Lacks(b, c)
    ensures Lacks(a + b, c)
  {
    forall k | 0 <= k < |a + b| ensures (a + b)[k] != c {
      if k >= |a| {
        assert (a + b)[k] == b[k - |a|];
      }
    }
  }
}
