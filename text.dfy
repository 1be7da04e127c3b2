/** The few Python `str` operations the pipeline relies on, with Python's meaning:
    `sep.join(parts)`, `s.split(sep)`, `s.rstrip()`, `s.startswith(p)`,
    `s[-4:]`, and the ordering `<=` on strings (code point by code point). */
module Text {

  /** `sep.join(parts)` */
  function Join(sep: string, parts: seq<string>): string
  {
    if |parts| == 0 then ""
    else if |parts| == 1 then parts[0]
    else parts[0] + sep + Join(sep, parts[1..])
  }

  /** `s.split(sep)` for a non-empty separator: cut at every occurrence of `sep`,
      searching left to right and never reusing a character of a previous match. */
  function Split(s: string, sep: string): (r: seq<string>)
    requires |sep| > 0
    ensures |r| >= 1
    decreases |s|, |s| + 1
  {
    SplitFrom(s, sep, 0)
  }

  /** Split `s` where no occurrence of `sep` starts before index `i`. */
  function SplitFrom(s: string, sep: string, i: nat): (r: seq<string>)
    requires |sep| > 0 && i <= |s|
    ensures |r| >= 1
    decreases |s|, |s| - i
  {
    if i + |sep| > |s| then [s]
    else if s[i..i + |sep|] == sep then [s[..i]] + Split(s[i + |sep|..], sep)
    else SplitFrom(s, sep, i + 1)
  }

  /** `c in s` for a single character. */
  predicate Lacks(s: string, c: char)
  {
    forall k :: 0 <= k < |s| ==> s[k] != c
  }

  /** Splitting and joining again gives back the string, whatever it holds. */
  lemma {:induction false} JoinSplit(s: string, sep: string)
    requires |sep| > 0
    ensures Join(sep, Split(s, sep)) == s
    decreases |s|, |s| + 1
  {
    JoinSplitFrom(s, sep, 0);
  }

  lemma {:induction false} JoinSplitFrom(s: string, sep: string, i: nat)
    requires |sep| > 0 && i <= |s|
    ensures Join(sep, SplitFrom(s, sep, i)) == s
    decreases |s|, |s| - i
  {
    if i + |sep| > |s| {
    } else if s[i..i + |sep|] == sep {
      var rest := s[i + |sep|..];
      JoinSplit(rest, sep);
      assert s == s[..i] + sep + rest;
    } else {
      JoinSplitFrom(s, sep, i + 1);
    }
  }

  /** A piece without the separator's first character is never cut. */
  lemma {:induction false} SplitFromWhole(p: string, sep: string, i: nat)
    requires |sep| > 0 && i <= |p| && Lacks(p, sep[0])
    ensures SplitFrom(p, sep, i) == [p]
    decreases |p| - i
  {
    if i + |sep| <= |p| {
      assert p[i..i + |sep|][0] == p[i];
      SplitFromWhole(p, sep, i + 1);
    }
  }

  /** The first cut of `p + sep + rest` falls right after `p`. */
  lemma {:induction false} SplitFromFirst(p: string, sep: string, rest: string, i: nat)
    requires |sep| > 0 && i <= |p| && Lacks(p, sep[0])
    ensures SplitFrom(p + sep + rest, sep, i) == [p] + Split(rest, sep)
    decreases |p| - i
  {
    var s := p + sep + rest;
    if i < |p| {
      assert s[i..i + |sep|][0] == p[i];
      SplitFromFirst(p, sep, rest, i + 1);
    } else {
      assert s[i..i + |sep|] == sep;
      assert s[..i] == p && s[i + |sep|..] == rest;
    }
  }

  /** Joining and splitting again gives back the parts, when no part holds the
      separator's first character. */
  lemma {:induction false} SplitJoin(parts: seq<string>, sep: string)
    requires |sep| > 0 && |parts| > 0
    requires forall k :: 0 <= k < |parts| ==> Lacks(parts[k], sep[0])
    ensures Split(Join(sep, parts), sep) == parts
  {
    if |parts| == 1 {
      SplitFromWhole(parts[0], sep, 0);
    } else {
      SplitFromFirst(parts[0], sep, Join(sep, parts[1..]), 0);
      SplitJoin(parts[1..], sep);
    }
  }

  /** `s.startswith(p)` */
  predicate StartsWith(s: string, p: string)
  {
    |p| <= |s| && s[..|p|] == p
  }

  /** A prefix of a prefix is a prefix. */
  lemma StartsWithTrans(a: string, b: string, c: string)
    requires StartsWith(a, b) && StartsWith(b, c)
    ensures StartsWith(a, c)
  {
    assert a[..|c|] == a[..|b|][..|c|];
  }

  /** A common head does not change whether one string starts with another. */
  lemma StartsWithAfter(h: string, s: string, p: string)
    ensures StartsWith(h + s, h + p) <==> StartsWith(s, p)
  {
    if StartsWith(h + s, h + p) {
      assert s[..|p|] == (h + s)[..|h + p|][|h|..];
    }
    if StartsWith(s, p) {
      assert (h + s)[..|h + p|] == h + s[..|p|];
    }
  }

  /** `s[-n:]`: the last `n` characters, or all of `s` when it is shorter. */
  function Tail(s: string, n: nat): (r: string)
    ensures |r| == if |s| < n then |s| else n
  {
    if |s| < n then s else s[|s| - n..]
  }

  /** The characters Python's `str.isspace` accepts: ASCII white space, the
      information separators, NEL, NO-BREAK SPACE and the Unicode space and
      line/paragraph separators. */
  predicate IsSpace(c: char)
  {
    || c == ' ' || ('\t' <= c <= '\r') || ('\U{1c}' <= c <= '\U{1f}')
    || c == '\U{85}' || c == '\U{a0}' || c == '\U{1680}'
    || ('\U{2000}' <= c <= '\U{200a}') || c == '\U{2028}' || c == '\U{2029}'
    || c == '\U{202f}' || c == '\U{205f}' || c == '\U{3000}'
  }

  /** `s.rstrip()`: drop the white space at the end. */
  function RStrip(s: string): (r: string)
    ensures |r| <= |s| && r == s[..|r|]
    ensures r == [] || !IsSpace(r[|r| - 1])
    ensures forall k :: |r| <= k < |s| ==> IsSpace(s[k])
  {
    if s != [] && IsSpace(s[|s| - 1]) then RStrip(s[..|s| - 1]) else s
  }

  /** Python's `a <= b` on strings: lexicographic by code point, a proper prefix
      coming first. */
  predicate LessEq(a: string, b: string)
  {
    a == [] || (b != [] && (a[0] < b[0] || (a[0] == b[0] && LessEq(a[1..], b[1..]))))
  }

  lemma {:induction false} LessEqReflexive(a: string)
    ensures LessEq(a, a)
  {
    if a != [] {
      LessEqReflexive(a[1..]);
    }
  }

  lemma {:induction false} LessEqTotal(a: string, b: string)
    ensures LessEq(a, b) || LessEq(b, a)
  {
    if a != [] && b != [] && a[0] == b[0] {
      LessEqTotal(a[1..], b[1..]);
    }
  }

  lemma {:induction false} LessEqTransitive(a: string, b: string, c: string)
    requires LessEq(a, b) && LessEq(b, c)
    ensures LessEq(a, c)
  {
    if a != [] && b != [] && c != [] && a[0] == b[0] == c[0] {
      LessEqTransitive(a[1..], b[1..], c[1..]);
    }
  }

  lemma {:induction false} LessEqAntisymmetric(a: string, b: string)
    requires LessEq(a, b) && LessEq(b, a)
    ensures a == b
  {
    if a != [] && b != [] {
      LessEqAntisymmetric(a[1..], b[1..]);
      assert a == [a[0]] + a[1..] && b == [b[0]] + b[1..];
    }
  }

  /** A common prefix does not change the order. */
  lemma {:induction false} LessEqAfterPrefix(p: string, a: string, b: string)
    ensures LessEq(p + a, p + b) == LessEq(a, b)
  {
    if p != [] {
      assert (p + a)[0] == p[0] == (p + b)[0];
      assert (p + a)[1..] == p[1..] + a && (p + b)[1..] == p[1..] + b;
      LessEqAfterPrefix(p[1..], a, b);
    } else {
      assert p + a == a && p + b == b;
    }
  }
}
