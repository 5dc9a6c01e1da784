/**
  Path strings as the harness builds and takes apart with os.path:
  components separated by '/', joined by os.path.join and split by
  os.path.basename and os.path.dirname; plus the two string tests the
  harness uses (str.endswith and the substring test `in`).
 */
module Paths {

  /** os.path.join(a, b) for a relative `b` and an `a` that does not end in '/'. */
  function Join(a: string, b: string): string {
    a + "/" + b
  }

  /** Index of the last '/' in `p`, or -1 when there is none. */
  function LastSep(p: string): (i: int)
    ensures -1 <= i < |p|
    ensures 0 <= i ==> p[i] == '/'
    ensures forall j :: i < j < |p| ==> p[j] != '/'
  {
    if |p| == 0 then -1
    else if p[|p| - 1] == '/' then |p| - 1
    else LastSep(p[..|p| - 1])
  }

  /** os.path.basename: what follows the last '/'. */
  function Basename(p: string): (b: string)
    ensures '/' !in b
  {
    var i := LastSep(p);
    var b := p[i + 1..];
    assert '/' !in b by {
      forall k | 0 <= k < |b| ensures b[k] != '/' {
        assert b[k] == p[i + 1 + k];
      }
    }
    b
  }

  /** os.path.dirname: what precedes the last '/' ("/" for a path directly under the root). */
  function Dirname(p: string): string {
    var i := LastSep(p);
    if i < 0 then "" else if i == 0 then "/" else p[..i]
  }

  /** `p` names something strictly inside directory `d`. */
  predicate IsUnder(d: string, p: string) {
    |p| > |d| + 1 && p[..|d|] == d && p[|d|] == '/'
  }

  /** The part of `p` below directory `d`. */
  function Rest(d: string, p: string): (r: string)
    requires IsUnder(d, p)
    ensures p == Join(d, r) && r != ""
  {
    var r := p[|d| + 1..];
    assert p == p[..|d|] + [p[|d|]] + r;
    r
  }

  /** str.endswith */
  predicate EndsWith(s: string, suffix: string) {
    |suffix| <= |s| && s[|s| - |suffix|..] == suffix
  }

  /** The substring test `sub in s`. */
  predicate Contains(s: string, sub: string)
    decreases |s|
  {
    (|sub| <= |s| && s[..|sub|] == sub) || (|s| > 0 && Contains(s[1..], sub))
  }

  /** `sub` starts at position `i` of `s`. */
  predicate OccursAt(s: string, sub: string, i: int) {
    0 <= i && i + |sub| <= |s| && s[i..i + |sub|] == sub
  }

  /** `sub in s` holds exactly when `sub` occurs at some position of `s`. */
  lemma {:induction false} ContainsAt(s: string, sub: string)
    ensures Contains(s, sub) <==> exists i :: OccursAt(s, sub, i)
    decreases |s|
  {
    if |sub| <= |s| && s[..|sub|] == sub {
      assert OccursAt(s, sub, 0);
    }
    if |s| == 0 {
      if exists i :: OccursAt(s, sub, i) {
        var i :| OccursAt(s, sub, i);
        assert s[..|sub|] == s[i..i + |sub|];
      }
    } else {
      ContainsAt(s[1..], sub);
      if Contains(s[1..], sub) {
        var i :| OccursAt(s[1..], sub, i);
        assert s[i + 1..i + 1 + |sub|] == s[1..][i..i + |sub|];
        assert OccursAt(s, sub, i + 1);
      }
      if exists i :: OccursAt(s, sub, i) {
        var i :| OccursAt(s, sub, i);
        if i > 0 {
          assert s[1..][i - 1..i - 1 + |sub|] == s[i..i + |sub|];
          assert OccursAt(s[1..], sub, i - 1);
        } else {
          assert s[..|sub|] == s[i..i + |sub|];
        }
      }
    }
  }

  /** A relative path is looked up under the working directory, an absolute one as it is. */
  function Resolve(cwd: string, p: string): string {
    if |p| > 0 && p[0] == '/' then p else Join(cwd, p)
  }

  lemma {:induction false} LastSepOfJoin(d: string, f: string)
    requires '/' !in f
    ensures LastSep(Join(d, f)) == |d|
    decreases |f|
  {
    var p := Join(d, f);
    if f == [] {
      assert p[|p| - 1] == '/';
    } else {
      assert p[|p| - 1] == f[|f| - 1];
      assert p[..|p| - 1] == Join(d, f[..|f| - 1]);
      LastSepOfJoin(d, f[..|f| - 1]);
    }
  }

  /** basename and dirname take apart what join put together. */
  lemma JoinSplits(d: string, f: string)
    requires d != "" && '/' !in f
    ensures Basename(Join(d, f)) == f
    ensures Dirname(Join(d, f)) == d
  {
    LastSepOfJoin(d, f);
    var p := Join(d, f);
    assert p[|d| + 1..] == f;
    assert p[..|d|] == d;
  }

  /** Joining under one directory never makes two names collide. */
  lemma JoinInjective(d: string, a: string, b: string)
    ensures Join(d, a) == Join(d, b) ==> a == b
  {
    if Join(d, a) == Join(d, b) {
      assert a == Join(d, a)[|d| + 1..];
      assert b == Join(d, b)[|d| + 1..];
    }
  }

  /** Everything joined under `d` is under `d`, and Rest recovers the joined name. */
  lemma JoinIsUnder(d: string, r: string)
    requires r != ""
    ensures IsUnder(d, Join(d, r)) && Rest(d, Join(d, r)) == r
  {
    var p := Join(d, r);
    assert p[..|d|] == d;
    assert p[|d| + 1..] == r;
  }

  /** Neither directory is the other, nor lies inside the other. */
  predicate Apart(a: string, b: string) {
    !(a + "/" <= b + "/") && !(b + "/" <= a + "/")
  }

  /** Nothing joined under `b` lies under a directory `a` apart from it, nor does `b` itself. */
  lemma ApartNotUnder(a: string, b: string, r: string)
    requires Apart(a, b)
    ensures !IsUnder(a, Join(b, r)) && !IsUnder(a, b)
  {
    var p := Join(b, r);
    var x, y := a + "/", b + "/";
    assert y == p[..|y|];
  }

  /** Two suffixes appended to one base name give one name only if they are the same. */
  lemma SuffixCancels(b: string, x: string, y: string)
    ensures b + x == b + y ==> x == y
  {
    if b + x == b + y {
      assert x == (b + x)[|b|..];
      assert y == (b + y)[|b|..];
    }
  }
}
