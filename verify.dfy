/**
 * `verifyCSS` and `verifyJS`: every local asset a page references must have the
 * basename of an entry in the asset manifest. Both are `Check` with their own
 * manifest and kind.
 */
module Verify {
  import opened Wrappers
  import opened Paths

  datatype AssetKind = Css | Js

  /** The thrown error: the kind checked and every distinct local basename found, in first-seen order. */
  datatype VerifyError = NotAllIncluded(kind: AssetKind, paths: seq<string>)

  /** The approved stylesheets. */
  const CssManifest: seq<string> := ["css/normalize.css", "css/webflow.css", "css/jraft-landing.webflow.css"]

  /** The approved scripts. */
  const JsManifest: seq<string> := ["js/webflow.js"]

  /** A reference that is neither missing nor accepted by `isWebUri`. */
  predicate IsLocal(ref: Option<string>, isWebUri: string -> bool)
  {
    ref.Some? && !isWebUri(ref.value)
  }

  /** The set of basenames of the local references. */
  ghost function LocalSet(refs: seq<Option<string>>, isWebUri: string -> bool): set<string>
  {
    set ref | ref in refs && IsLocal(ref, isWebUri) :: Basename(ref.value)
  }

  lemma LocalSetSnoc(refs: seq<Option<string>>, last: Option<string>, isWebUri: string -> bool)
    ensures LocalSet(refs + [last], isWebUri)
         == LocalSet(refs, isWebUri) + if IsLocal(last, isWebUri) then {Basename(last.value)} else {}
  {
  }

  /** The basenames of the local references, in order, repeats kept. */
  function LocalBasenames(refs: seq<Option<string>>, isWebUri: string -> bool): (r: seq<string>)
    ensures forall b :: b in r <==> b in LocalSet(refs, isWebUri)
  {
    if refs == [] then []
    else
      var init, last := refs[..|refs| - 1], refs[|refs| - 1];
      assert refs == init + [last];
      LocalSetSnoc(init, last, isWebUri);
      LocalBasenames(init, isWebUri) + if IsLocal(last, isWebUri) then [Basename(last.value)] else []
  }

  predicate NoDuplicates(s: seq<string>)
  {
    forall i, j :: 0 <= i < j < |s| ==> s[i] != s[j]
  }

  /** `new Set(s)` read back as a list: each element once, at its first occurrence. */
  function Distinct(s: seq<string>): (r: seq<string>)
    ensures forall x :: x in r <==> x in s
    ensures NoDuplicates(r)
  {
    if s == [] then []
    else
      var d := Distinct(s[..|s| - 1]);
      assert forall x :: x in s <==> x in s[..|s| - 1] || x == s[|s| - 1];
      if s[|s| - 1] in d then d else d + [s[|s| - 1]]
  }

  /** `a` occurs in `s` before `b` first does. */
  ghost predicate SeenBefore(a: string, b: string, s: seq<string>)
  {
    exists k :: 0 <= k < |s| && s[k] == a && b !in s[..k + 1]
  }

  /** Of any two elements of `r`, the earlier one occurs in `s` before the later one first does. */
  ghost predicate InFirstSeenOrder(r: seq<string>, s: seq<string>)
  {
    forall i, j :: 0 <= i < j < |r| ==> SeenBefore(r[i], r[j], s)
  }

  /** `Distinct` lists elements in the order of their first occurrence, as a JavaScript `Set` iterates. */
  lemma {:induction false} DistinctKeepsFirstSeenOrder(s: seq<string>)
    ensures InFirstSeenOrder(Distinct(s), s)
  {
    if s != [] {
      var init, last := s[..|s| - 1], s[|s| - 1];
      DistinctKeepsFirstSeenOrder(init);
      var d, r := Distinct(init), Distinct(s);
      assert InFirstSeenOrder(d, init);
      assert r == d || (r == d + [last] && last !in init);
      forall i, j | 0 <= i < j < |r|
        ensures SeenBefore(r[i], r[j], s)
      {
        assert r[i] == d[i];
        if j < |d| {
          assert SeenBefore(d[i], d[j], init);
          var k :| 0 <= k < |init| && init[k] == d[i] && d[j] !in init[..k + 1];
          assert s[..k + 1] == init[..k + 1];
          assert s[k] == r[i] && r[j] == d[j];
        } else {
          assert d[i] in init;
          var k :| 0 <= k < |init| && init[k] == d[i];
          assert s[..k + 1] == init[..k + 1];
          assert r[j] == last;
          assert s[k] == r[i] && r[j] !in s[..k + 1];
        }
      }
    }
  }

  /** The basenames of the manifest entries. */
  function ManifestBasenames(manifest: seq<string>): set<string>
  {
    set p | p in manifest :: Basename(p)
  }

  /**
   * Succeeds exactly when the basename of every local reference is the basename
   * of some manifest entry; otherwise fails naming all local basenames.
   */
  function Check(refs: seq<Option<string>>, manifest: seq<string>, kind: AssetKind,
                 isWebUri: string -> bool): (r: Result<(), VerifyError>)
    ensures r.Success? <==>
      forall ref :: ref in refs && IsLocal(ref, isWebUri) ==> Basename(ref.value) in ManifestBasenames(manifest)
    ensures r.Failure? ==> r.error.kind == kind && NoDuplicates(r.error.paths)
    ensures r.Failure? ==> forall b :: b in r.error.paths <==> b in LocalSet(refs, isWebUri)
    ensures r.Failure? ==> exists b :: b in r.error.paths && b !in ManifestBasenames(manifest)
    ensures r.Failure? ==> InFirstSeenOrder(r.error.paths, LocalBasenames(refs, isWebUri))
  {
    DistinctKeepsFirstSeenOrder(LocalBasenames(refs, isWebUri));
    var paths := Distinct(LocalBasenames(refs, isWebUri));
    var allowed := ManifestBasenames(manifest);
    if forall p :: p in paths ==> p in allowed then Success(())
    else Failure(NotAllIncluded(kind, paths))
  }

  lemma {:induction false} LocalBasenamesAppend(a: seq<Option<string>>, b: seq<Option<string>>, isWebUri: string -> bool)
    ensures LocalBasenames(a + b, isWebUri) == LocalBasenames(a, isWebUri) + LocalBasenames(b, isWebUri)
  {
    if b == [] {
      assert a + b == a;
    } else {
      var b' := b[..|b| - 1];
      assert (a + b)[..|a + b| - 1] == a + b';
      LocalBasenamesAppend(a, b', isWebUri);
    }
  }

  lemma {:induction false} NoLocalBasenames(refs: seq<Option<string>>, isWebUri: string -> bool)
    requires forall ref :: ref in refs ==> !IsLocal(ref, isWebUri)
    ensures LocalBasenames(refs, isWebUri) == []
  {
    if refs != [] {
      assert forall ref :: ref in refs[..|refs| - 1] ==> ref in refs;
      NoLocalBasenames(refs[..|refs| - 1], isWebUri);
    }
  }

  /** Missing references and web URIs, wherever they stand, never change the verdict or the error. */
  lemma NonLocalRefsIgnored(a: seq<Option<string>>, extra: seq<Option<string>>, b: seq<Option<string>>,
                            manifest: seq<string>, kind: AssetKind, isWebUri: string -> bool)
    requires forall ref :: ref in extra ==> ref.None? || isWebUri(ref.value)
    ensures Check(a + extra + b, manifest, kind, isWebUri) == Check(a + b, manifest, kind, isWebUri)
  {
    NoLocalBasenames(extra, isWebUri);
    LocalBasenamesAppend(a, extra, isWebUri);
    LocalBasenamesAppend(a + extra, b, isWebUri);
    LocalBasenamesAppend(a, b, isWebUri);
    assert LocalBasenames(a + extra + b, isWebUri) == LocalBasenames(a + b, isWebUri);
  }

  /** Matching is by basename only: swapping a local reference for another with the same basename changes nothing. */
  lemma SameBasenameSameVerdict(refs: seq<Option<string>>, i: nat, p: string,
                                manifest: seq<string>, kind: AssetKind, isWebUri: string -> bool)
    requires i < |refs| && IsLocal(refs[i], isWebUri) && !isWebUri(p)
    requires Basename(p) == Basename(refs[i].value)
    ensures Check(refs[i := Some(p)], manifest, kind, isWebUri) == Check(refs, manifest, kind, isWebUri)
  {
    var pre, post := refs[..i], refs[i + 1..];
    assert refs == pre + [refs[i]] + post;
    assert refs[i := Some(p)] == pre + [Some(p)] + post;
    LocalBasenamesAppend(pre, [refs[i]], isWebUri);
    LocalBasenamesAppend(pre + [refs[i]], post, isWebUri);
    LocalBasenamesAppend(pre, [Some(p)], isWebUri);
    LocalBasenamesAppend(pre + [Some(p)], post, isWebUri);
    assert [refs[i]][..0] == [] == [Some(p)][..0];
  }

  lemma ManifestBasenamesSnoc(manifest: seq<string>, p: string)
    ensures ManifestBasenames(manifest + [p]) == ManifestBasenames(manifest) + {Basename(p)}
  {
  }

  /** Files listed under one directory are approved by their own names. */
  lemma {:induction false} ManifestInDirectory(m: seq<string>, dir: string, names: seq<string>)
    requires forall f :: f in names ==> IsSegment(f)
    requires |m| == |names| && forall i :: 0 <= i < |m| ==> m[i] == dir + "/" + names[i]
    ensures forall b :: b in ManifestBasenames(m) <==> b in names
  {
    forall f | f in names ensures f in ManifestBasenames(m) {
      var i :| 0 <= i < |names| && names[i] == f;
      BasenameOfSegment(dir, f);
      assert m[i] in m;
    }
    forall p | p in m ensures Basename(p) in names {
      var i :| 0 <= i < |m| && m[i] == p;
      BasenameOfSegment(dir, names[i]);
    }
  }

  /** A three-entry manifest approves exactly the basenames of its entries. */
  lemma ManifestOfThree(m: seq<string>, a: string, b: string, c: string)
    requires |m| == 3 && Basename(m[0]) == a && Basename(m[1]) == b && Basename(m[2]) == c
    ensures ManifestBasenames(m) == {a, b, c}
  {
    assert m[0] in m && m[1] in m && m[2] in m;
  }

  /** An entry `dir/f` with a segment `f` has basename `f`. */
  lemma EntryBasename(p: string, dir: string, f: string)
    requires IsSegment(f) && p == dir + "/" + f
    ensures Basename(p) == f
  {
    BasenameOfSegment(dir, f);
  }

  /** The stylesheet manifest lists three files under `css`, one lemma per entry. */
  lemma NormalizeCssPath()
    ensures CssManifest[0] == "css" + "/" + "normalize.css"
  {
  }

  lemma WebflowCssPath()
    ensures CssManifest[1] == "css" + "/" + "webflow.css"
  {
  }

  lemma LandingCssPath()
    ensures CssManifest[2] == "css" + "/" + "jraft-landing.webflow.css"
  {
  }

  lemma CssNamesAreSegments()
    ensures IsSegment("normalize.css") && IsSegment("webflow.css") && IsSegment("jraft-landing.webflow.css")
  {
  }

  /** The stylesheet manifest approves exactly these three basenames. */
  lemma CssManifestBasenames()
    ensures ManifestBasenames(CssManifest) == {"normalize.css", "webflow.css", "jraft-landing.webflow.css"}
  {
    NormalizeCssPath();
    WebflowCssPath();
    LandingCssPath();
    CssNamesAreSegments();
    EntryBasename(CssManifest[0], "css", "normalize.css");
    EntryBasename(CssManifest[1], "css", "webflow.css");
    EntryBasename(CssManifest[2], "css", "jraft-landing.webflow.css");
    ManifestOfThree(CssManifest, "normalize.css", "webflow.css", "jraft-landing.webflow.css");
  }

  /** The script manifest approves exactly `webflow.js`. */
  lemma JsManifestBasenames()
    ensures ManifestBasenames(JsManifest) == {"webflow.js"}
  {
    assert JsManifest[0] == "js" + "/" + "webflow.js";
    ManifestInDirectory(JsManifest, "js", ["webflow.js"]);
  }

  /** A page with one local reference whose basename is not approved fails naming exactly that basename. */
  lemma SingleUnlistedRejected(path: string, manifest: seq<string>, kind: AssetKind, isWebUri: string -> bool)
    requires !isWebUri(path) && Basename(path) !in ManifestBasenames(manifest)
    ensures Check([Some(path)], manifest, kind, isWebUri) == Failure(NotAllIncluded(kind, [Basename(path)]))
  {
    var refs := [Some(path)];
    assert refs[..0] == [];
    assert LocalBasenames(refs, isWebUri) == [Basename(path)];
    assert [Basename(path)][..0] == [];
    assert Distinct([Basename(path)]) == [Basename(path)];
    assert Basename(path) in Distinct([Basename(path)]);
  }

  /** Against a manifest holding only `a.css`, a local `b.css` is rejected and named in the error. */
  lemma RejectsUnlistedStylesheet(isWebUri: string -> bool)
    requires !isWebUri("b.css")
    ensures Check([Some("b.css")], ["a.css"], Css, isWebUri) == Failure(NotAllIncluded(Css, ["b.css"]))
  {
    BasenameOfSegment("", "a.css");
    BasenameOfSegment("", "b.css");
    ManifestBasenamesSnoc([], "a.css");
    assert ["a.css"] == [] + ["a.css"];
    assert ManifestBasenames([]) == {};
    SingleUnlistedRejected("b.css", ["a.css"], Css, isWebUri);
  }

  /** With the real stylesheet manifest, a local `b.css` is rejected and named in the error. */
  lemma UnlistedBasenameRejected(isWebUri: string -> bool)
    requires !isWebUri("b.css")
    ensures Check([Some("b.css")], CssManifest, Css, isWebUri) == Failure(NotAllIncluded(Css, ["b.css"]))
  {
    BasenameOfSegment("", "b.css");
    CssManifestBasenames();
    SingleUnlistedRejected("b.css", CssManifest, Css, isWebUri);
  }
}
