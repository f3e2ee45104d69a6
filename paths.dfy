/** The two functions of Node's POSIX `path` module that the build uses on asset paths. */
module Paths {

  /** `p` without its trailing '/' characters. */
  function StripTrailingSlashes(p: string): string
  {
    if |p| > 0 && p[|p| - 1] == '/' then StripTrailingSlashes(p[..|p| - 1]) else p
  }

  /** The longest suffix of `p` that holds no '/'. */
  function LastSegment(p: string): (r: string)
    ensures '/' !in r
  {
    if |p| == 0 || p[|p| - 1] == '/' then [] else LastSegment(p[..|p| - 1]) + [p[|p| - 1]]
  }

  /** `LastSegment(p)` is a suffix of `p`, and the character just before it, if any, is '/'. */
  lemma {:induction false} LastSegmentIsLongestSlashFreeSuffix(p: string)
    ensures |LastSegment(p)| <= |p| && LastSegment(p) == p[|p| - |LastSegment(p)|..]
    ensures |LastSegment(p)| < |p| ==> p[|p| - |LastSegment(p)| - 1] == '/'
  {
    if |p| > 0 && p[|p| - 1] != '/' {
      var p', c := p[..|p| - 1], p[|p| - 1];
      LastSegmentIsLongestSlashFreeSuffix(p');
      var seg, seg' := LastSegment(p), LastSegment(p');
      var k := |seg'|;
      assert seg == seg' + [c];
      assert seg' == p'[|p'| - k..];
      var tail := p[|p| - (k + 1)..];
      assert |tail| == k + 1 == |seg|;
      forall j | 0 <= j < k + 1 ensures tail[j] == seg[j] {
        if j < k {
          assert tail[j] == p'[|p'| - k + j] == seg'[j];
        }
      }
      if k + 1 < |p| {
        assert p[|p| - (k + 1) - 1] == p'[|p'| - k - 1];
      }
    }
  }

  /** `StripTrailingSlashes(p)` is a prefix of `p` that does not end in '/', followed in `p` only by '/'. */
  lemma {:induction false} StripTrailingSlashesIsPrefix(p: string)
    ensures |StripTrailingSlashes(p)| <= |p| && StripTrailingSlashes(p) == p[..|StripTrailingSlashes(p)|]
    ensures StripTrailingSlashes(p) == [] || StripTrailingSlashes(p)[|StripTrailingSlashes(p)| - 1] != '/'
    ensures forall i :: |StripTrailingSlashes(p)| <= i < |p| ==> p[i] == '/'
  {
    if |p| > 0 && p[|p| - 1] == '/' {
      StripTrailingSlashesIsPrefix(p[..|p| - 1]);
    }
  }

  /** `path.basename(p)`: the last segment once trailing separators are ignored. */
  function Basename(p: string): (r: string)
    ensures '/' !in r
  {
    LastSegment(StripTrailingSlashes(p))
  }

  /** A single, non-empty path segment such as a file name. */
  predicate IsSegment(f: string)
  {
    f != [] && '/' !in f
  }

  /** `path.join(base, name)` for a `base` that is already normalised. */
  function Join(base: string, name: string): (r: string)
    ensures |r| >= |base| + |name| && r[..|base|] == base && r[|r| - |name|..] == name
    ensures |r| == |base| + |name| + (if base == [] || base[|base| - 1] == '/' then 0 else 1)
    ensures |r| > |base| + |name| ==> r[|base|] == '/'
  {
    if base == [] then name
    else if base[|base| - 1] == '/' then base + name
    else base + "/" + name
  }

  /** A segment is its own basename, and so is the final segment of any path ending in it. */
  lemma BasenameOfSegment(dir: string, f: string)
    requires IsSegment(f)
    ensures Basename(f) == f
    ensures Basename(dir + "/" + f) == f
  {
    LastSegmentAfterSlash(dir, f);
    assert (dir + "/" + f)[|dir + "/" + f| - 1] == f[|f| - 1];
  }

  /** The last segment of `dir + "/" + f` and of `f` is `f` when `f` holds no '/'. */
  lemma {:induction false} LastSegmentAfterSlash(dir: string, f: string)
    requires '/' !in f
    ensures LastSegment(f) == f
    ensures LastSegment(dir + "/" + f) == f
  {
    if f != [] {
      var f' := f[..|f| - 1];
      assert (dir + "/" + f)[..|dir + "/" + f| - 1] == dir + "/" + f';
      assert f' + [f[|f| - 1]] == f;
      LastSegmentAfterSlash(dir, f');
    } else {
      assert dir + "/" + f == dir + "/";
    }
  }

  /** Taking a basename twice changes nothing. */
  lemma BasenameIdempotent(p: string)
    ensures Basename(Basename(p)) == Basename(p)
  {
    var b := Basename(p);
    if b != [] {
      BasenameOfSegment("", b);
    }
  }

  /** The file written by `concat` carries `name` as its basename. */
  lemma JoinBasename(base: string, name: string)
    requires IsSegment(name)
    ensures Basename(Join(base, name)) == name
  {
    if base == [] {
      BasenameOfSegment("", name);
    } else if base[|base| - 1] == '/' {
      var d := base[..|base| - 1];
      assert base + name == d + "/" + name;
      BasenameOfSegment(d, name);
    } else {
      BasenameOfSegment(base, name);
    }
  }

  /** Two references that differ only in their directories have the same basename. */
  lemma BasenameIgnoresDirectories()
    ensures Basename("../../css/webflow.css") == Basename("css/webflow.css") == "webflow.css"
  {
    assert "../../css/webflow.css" == "../../css" + "/" + "webflow.css";
    assert "css/webflow.css" == "css" + "/" + "webflow.css";
    BasenameOfSegment("../../css", "webflow.css");
    BasenameOfSegment("css", "webflow.css");
  }
}
