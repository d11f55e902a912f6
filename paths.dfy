/** Slash arithmetic on object keys and local paths: the prefix normalisation that
    every helper repeats, `posixpath.join`, and the last path component
    (`key.split('/')[-1]`, `os.path.basename`). */
module Paths {

  predicate EndsWithSlash(s: string) {
    s != [] && s[|s| - 1] == '/'
  }

  /** `p + '/' if p and p[-1] != '/' else p`: a non-empty prefix gets exactly one
      trailing slash, an empty or already slashed prefix is left alone. */
  function NormalizePrefix(p: string): (r: string)
    ensures r == "" <==> p == ""
    ensures p != "" ==> EndsWithSlash(r)
    ensures |p| <= |r| <= |p| + 1 && r[..|p|] == p
    ensures EndsWithSlash(p) || p == "" ==> r == p
  {
    if p != "" && p[|p| - 1] != '/' then p + "/" else p
  }

  /** Normalising twice is normalising once, so a prefix is never double-slashed
      by the helpers that normalise before calling the scanner, which normalises
      again. */
  lemma NormalizeIdempotent(p: string)
    ensures NormalizePrefix(NormalizePrefix(p)) == NormalizePrefix(p)
  {
  }

  /** `posixpath.join(a, b)`: an absolute `b` replaces `a`; otherwise `b` is
      appended to `a`, with one separator between unless `a` is empty or already
      ends with one. */
  function Join(a: string, b: string): string {
    if b != "" && b[0] == '/' then b
    else if a == "" || a[|a| - 1] == '/' then a + b
    else a + "/" + b
  }

  /** The joined path always ends with `b`; an absolute `b` is the whole result,
      and otherwise what precedes `b` is the normalised `a`. */
  lemma JoinSpec(a: string, b: string)
    ensures |b| <= |Join(a, b)| && Join(a, b)[|Join(a, b)| - |b|..] == b
    ensures b != "" && b[0] == '/' ==> Join(a, b) == b
    ensures (b == "" || b[0] != '/') ==> Join(a, b) == NormalizePrefix(a) + b
  {
  }

  /** The text after the last '/' (all of `s` when it has none): Python's
      `s.split('/')[-1]`, which for these paths is also `os.path.basename(s)`. */
  function LastSegment(s: string): (r: string)
    ensures '/' !in r
    decreases |s|
  {
    if s == [] then []
    else if s[|s| - 1] == '/' then []
    else LastSegment(s[..|s| - 1]) + [s[|s| - 1]]
  }

  /** The last segment is a suffix of `s`: all of `s`, or what follows a '/'. */
  lemma {:induction false} LastSegmentSuffix(s: string)
    ensures |LastSegment(s)| <= |s| && s[|s| - |LastSegment(s)|..] == LastSegment(s)
    ensures |LastSegment(s)| < |s| ==> s[|s| - |LastSegment(s)| - 1] == '/'
    decreases |s|
  {
    if s != [] && s[|s| - 1] != '/' {
      var init := s[..|s| - 1];
      LastSegmentSuffix(init);
      assert s[|s| - |LastSegment(init)| - 1..] == init[|init| - |LastSegment(init)|..] + [s[|s| - 1]];
      assert |LastSegment(s)| == |LastSegment(init)| + 1;
      if |LastSegment(s)| < |s| {
        assert s[|s| - |LastSegment(s)| - 1] == init[|init| - |LastSegment(init)| - 1];
      }
    }
  }

  /** These facts pin the last segment down: any suffix
      without '/' that is all of `s` or follows a '/' is the last segment. */
  lemma LastSegmentUnique(s: string, t: string)
    requires '/' !in t
    requires |t| <= |s| && s[|s| - |t|..] == t
    requires |t| < |s| ==> s[|s| - |t| - 1] == '/'
    ensures t == LastSegment(s)
  {
    LastSegmentSuffix(s);
    var r := LastSegment(s);
    if |r| < |t| {
      assert false;
    } else if |t| < |r| {
      assert false;
    }
  }

  /** A name without '/' joined under any folder is read back by LastSegment:
      the basename of `os.path.join(folder, name)` is `name`. */
  lemma LastSegmentOfJoin(folder: string, name: string)
    requires '/' !in name
    ensures LastSegment(Join(folder, name)) == name
  {
    var j := Join(folder, name);
    JoinName(folder, name);
    if |name| < |j| {
      var n := NormalizePrefix(folder);
      assert j == n + name;
      assert EndsWithSlash(n);
      assert j[|j| - |name| - 1] == n[|n| - 1];
    }
    LastSegmentUnique(j, name);
  }

  /** Joining a name without '/' under a folder is concatenation with the
      normalised folder. */
  lemma JoinName(folder: string, name: string)
    requires '/' !in name
    ensures Join(folder, name) == NormalizePrefix(folder) + name
  {
    if name != "" {
      assert name[0] in name;
    }
    JoinSpec(folder, name);
  }
}
