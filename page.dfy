/**
 * The page step of `build`: validate a page's stylesheets and then its scripts,
 * and only then defer every script, drop every stylesheet link that is not a
 * web URI and append the bundled stylesheet to `<head>`.
 */
module Page {
  import opened Wrappers
  import opened Paths
  import opened Verify

  /** An element of the parsed page: its tag name and attributes. */
  datatype Element = Element(tag: string, attrs: map<string, string>)

  /** `.attr('defer', true)` stores the boolean as the string "true". */
  const DeferValue: string := "true"

  function Attr(e: Element, name: string): Option<string>
  {
    if name in e.attrs then Some(e.attrs[name]) else None
  }

  /** Matched by `script[src]`. */
  predicate IsScriptWithSrc(e: Element)
    ensures IsScriptWithSrc(e) ==> Attr(e, "src").Some?
  {
    e.tag == "script" && "src" in e.attrs
  }

  /** Matched by `link[rel=stylesheet]`. */
  predicate IsStylesheetLink(e: Element)
    ensures IsStylesheetLink(e) ==> !IsScriptWithSrc(e)
  {
    e.tag == "link" && Attr(e, "rel") == Some("stylesheet")
  }

  predicate HasDefer(e: Element)
  {
    "defer" in e.attrs
  }

  /** A reference `isWebUri` accepts; a missing one is not. */
  predicate IsWebRef(ref: Option<string>, isWebUri: string -> bool)
  {
    ref.Some? && isWebUri(ref.value)
  }

  /** A stylesheet link the rewrite removes: its `href` is missing or not a web URI. */
  predicate IsRemovedStylesheet(e: Element, isWebUri: string -> bool)
  {
    IsStylesheetLink(e) && !IsWebRef(Attr(e, "href"), isWebUri)
  }

  /** The elements each check selects. */
  predicate Selects(kind: AssetKind, e: Element)
  {
    match kind
    case Css => IsStylesheetLink(e)
    case Js => IsScriptWithSrc(e)
  }

  /** The attribute each check reads. */
  function RefOf(kind: AssetKind, e: Element): Option<string>
  {
    match kind
    case Css => Attr(e, "href")
    case Js => Attr(e, "src")
  }

  function Manifest(kind: AssetKind): seq<string>
  {
    match kind
    case Css => CssManifest
    case Js => JsManifest
  }

  /** The references of the selected elements, in document order. */
  function References(es: seq<Element>, kind: AssetKind): (r: seq<Option<string>>)
    ensures forall ref :: ref in r <==> exists e :: e in es && Selects(kind, e) && RefOf(kind, e) == ref
  {
    if es == [] then []
    else
      var init, last := es[..|es| - 1], es[|es| - 1];
      assert forall e :: e in es <==> e in init || e == last;
      References(init, kind) + if Selects(kind, last) then [RefOf(kind, last)] else []
  }

  /** References are collected element by element, so they keep document order and repeats. */
  lemma {:induction false} ReferencesAppend(a: seq<Element>, b: seq<Element>, kind: AssetKind)
    ensures References(a + b, kind) == References(a, kind) + References(b, kind)
  {
    if b == [] {
      assert a + b == a;
    } else {
      var b' := b[..|b| - 1];
      assert (a + b)[..|a + b| - 1] == a + b';
      ReferencesAppend(a, b', kind);
    }
  }

  /** Reference definition: every selected local reference has an approved basename. */
  ghost predicate AllApproved(es: seq<Element>, kind: AssetKind, isWebUri: string -> bool)
  {
    forall e :: e in es && Selects(kind, e) && IsLocal(RefOf(kind, e), isWebUri) ==>
      Basename(RefOf(kind, e).value) in ManifestBasenames(Manifest(kind))
  }

  /** `verifyCSS` (kind `Css`) and `verifyJS` (kind `Js`). */
  function VerifyAssets(es: seq<Element>, kind: AssetKind, isWebUri: string -> bool): (r: Result<(), VerifyError>)
    ensures r.Success? <==> AllApproved(es, kind, isWebUri)
    ensures r.Failure? ==> r.error.kind == kind && NoDuplicates(r.error.paths)
    ensures r.Failure? ==> forall b :: b in r.error.paths <==> b in LocalSet(References(es, kind), isWebUri)
    ensures r.Failure? ==> exists b :: b in r.error.paths && b !in ManifestBasenames(Manifest(kind))
    ensures r.Failure? ==> InFirstSeenOrder(r.error.paths, LocalBasenames(References(es, kind), isWebUri))
  {
    Check(References(es, kind), Manifest(kind), kind, isWebUri)
  }

  /** The `try` block of the page transform: `verifyCSS`, then `verifyJS`, stopping at the first throw. */
  function VerifyPage(es: seq<Element>, isWebUri: string -> bool): (r: Result<(), VerifyError>)
    ensures r.Success? <==> AllApproved(es, Css, isWebUri) && AllApproved(es, Js, isWebUri)
    ensures !AllApproved(es, Css, isWebUri) ==> r == VerifyAssets(es, Css, isWebUri) && r.Failure? && r.error.kind == Css
    ensures AllApproved(es, Css, isWebUri) ==> r == VerifyAssets(es, Js, isWebUri)
    ensures r.Failure? && r.error.kind == Js ==> AllApproved(es, Css, isWebUri)
  {
    var css := VerifyAssets(es, Css, isWebUri);
    if css.Failure? then css else VerifyAssets(es, Js, isWebUri)
  }

  /** `$('script[src]').attr('defer', true)` on a list of elements. */
  function WithDefer(es: seq<Element>): (r: seq<Element>)
    ensures |r| == |es|
    ensures forall i :: 0 <= i < |es| && !IsScriptWithSrc(es[i]) ==> r[i] == es[i]
    ensures forall i :: 0 <= i < |es| && IsScriptWithSrc(es[i]) ==>
      r[i].tag == es[i].tag && r[i].attrs == es[i].attrs["defer" := DeferValue]
  {
    if es == [] then []
    else
      var last := es[|es| - 1];
      WithDefer(es[..|es| - 1])
        + [if IsScriptWithSrc(last) then last.(attrs := last.attrs["defer" := DeferValue]) else last]
  }

  /** `$('link[rel=stylesheet]').filter(!isWebUri(href)).remove()` on a list of elements. */
  function WithoutLocalStylesheets(es: seq<Element>, isWebUri: string -> bool): (r: seq<Element>)
    ensures |r| <= |es|
    ensures forall e :: e in r ==> e in es && !IsRemovedStylesheet(e, isWebUri)
  {
    if es == [] then []
    else
      var init, last := es[..|es| - 1], es[|es| - 1];
      WithoutLocalStylesheets(init, isWebUri) + if IsRemovedStylesheet(last, isWebUri) then [] else [last]
  }

  /** Removal drops every removable stylesheet link and keeps every other element as often as it occurred. */
  lemma {:induction false} RemovalCounts(es: seq<Element>, isWebUri: string -> bool)
    ensures forall e :: multiset(WithoutLocalStylesheets(es, isWebUri))[e]
                     == if IsRemovedStylesheet(e, isWebUri) then 0 else multiset(es)[e]
  {
    if es != [] {
      var init, last := es[..|es| - 1], es[|es| - 1];
      assert es == init + [last];
      RemovalCounts(init, isWebUri);
    }
  }

  /** The element `$('head').append(...)` adds. */
  function StyleLink(prefix: string): (e: Element)
    ensures IsStylesheetLink(e) && Attr(e, "href") == Some(prefix + "/css/style.css")
  {
    Element("link", map["rel" := "stylesheet", "href" := prefix + "/css/style.css"])
  }

  function RewrittenHead(head: seq<Element>, prefix: string, isWebUri: string -> bool): seq<Element>
  {
    WithoutLocalStylesheets(WithDefer(head), isWebUri) + [StyleLink(prefix)]
  }

  function RewrittenBody(body: seq<Element>, isWebUri: string -> bool): seq<Element>
  {
    WithoutLocalStylesheets(WithDefer(body), isWebUri)
  }

  /** The page as the transform sees it: the children of `<head>` and of `<body>`, in document order. */
  class Document {
    var head: seq<Element>
    var body: seq<Element>

    constructor (head: seq<Element>, body: seq<Element>)
      ensures this.head == head && this.body == body
    {
      this.head := head;
      this.body := body;
    }

    function Elements(): seq<Element>
      reads this
    {
      head + body
    }

    method DeferScripts()
      modifies this
      ensures head == WithDefer(old(head)) && body == WithDefer(old(body))
    {
      head := WithDefer(head);
      body := WithDefer(body);
    }

    method RemoveLocalStylesheets(isWebUri: string -> bool)
      modifies this
      ensures head == WithoutLocalStylesheets(old(head), isWebUri)
      ensures body == WithoutLocalStylesheets(old(body), isWebUri)
    {
      head := WithoutLocalStylesheets(head, isWebUri);
      body := WithoutLocalStylesheets(body, isWebUri);
    }

    method AppendToHead(e: Element)
      modifies this
      ensures head == old(head) + [e] && body == old(body)
    {
      head := head + [e];
    }
  }

  /**
   * The body of `build`'s transform between parsing and serialising. A page that
   * fails validation is left as it was and yields the error.
   */
  method BuildPage(doc: Document, prefix: string, isWebUri: string -> bool) returns (r: Result<(), VerifyError>)
    modifies doc
    ensures r == VerifyPage(old(doc.Elements()), isWebUri)
    ensures r.Failure? ==> doc.head == old(doc.head) && doc.body == old(doc.body)
    ensures r.Success? ==> && doc.head == RewrittenHead(old(doc.head), prefix, isWebUri)
                           && doc.body == RewrittenBody(old(doc.body), isWebUri)
  {
    r := VerifyAssets(doc.Elements(), Css, isWebUri);
    if r.Failure? {
      return;
    }
    r := VerifyAssets(doc.Elements(), Js, isWebUri);
    if r.Failure? {
      return;
    }
    doc.DeferScripts();
    doc.RemoveLocalStylesheets(isWebUri);
    doc.AppendToHead(StyleLink(prefix));
  }

  /** After the rewrite every `script[src]` is deferred. */
  lemma AllScriptsDeferred(es: seq<Element>, isWebUri: string -> bool)
    ensures forall e :: e in WithoutLocalStylesheets(WithDefer(es), isWebUri) && IsScriptWithSrc(e) ==> HasDefer(e)
  {
  }

  /** Deferring leaves every element that is not a `script[src]` where and as often as it was. */
  lemma {:induction false} WithDeferKeepsOthers(es: seq<Element>, e: Element)
    requires !IsScriptWithSrc(e)
    ensures multiset(WithDefer(es))[e] == multiset(es)[e]
  {
    if es != [] {
      var init, last := es[..|es| - 1], es[|es| - 1];
      assert es == init + [last];
      var d := WithDefer(es);
      assert d == WithDefer(init) + [d[|d| - 1]];
      WithDeferKeepsOthers(init, e);
    }
  }

  /** Deferring twice is deferring once. */
  lemma WithDeferIdempotent(es: seq<Element>)
    ensures WithDefer(WithDefer(es)) == WithDefer(es)
  {
    var d := WithDefer(es);
    forall i | 0 <= i < |es| ensures WithDefer(d)[i] == d[i] {
      if IsScriptWithSrc(es[i]) {
        assert d[i].attrs["defer" := DeferValue] == d[i].attrs;
      }
    }
  }

  /** Removal keeps the order of what remains: it works element by element. */
  lemma {:induction false} RemovalKeepsOrder(a: seq<Element>, b: seq<Element>, isWebUri: string -> bool)
    ensures WithoutLocalStylesheets(a + b, isWebUri)
         == WithoutLocalStylesheets(a, isWebUri) + WithoutLocalStylesheets(b, isWebUri)
  {
    if b == [] {
      assert a + b == a;
    } else {
      var b', last := b[..|b| - 1], b[|b| - 1];
      var tail := if IsRemovedStylesheet(last, isWebUri) then [] else [last];
      assert (a + b)[..|a + b| - 1] == a + b' && (a + b)[|a + b| - 1] == last;
      assert WithoutLocalStylesheets(a + b, isWebUri) == WithoutLocalStylesheets(a + b', isWebUri) + tail;
      assert WithoutLocalStylesheets(b, isWebUri) == WithoutLocalStylesheets(b', isWebUri) + tail;
      RemovalKeepsOrder(a, b', isWebUri);
    }
  }

  /** Deferring and then removing leaves no removable link, and every other element that is not a `script[src]` as often as it was. */
  lemma CleanedElements(es: seq<Element>, isWebUri: string -> bool)
    ensures var k := WithoutLocalStylesheets(WithDefer(es), isWebUri);
            forall e :: !IsScriptWithSrc(e) ==>
              multiset(k)[e] == if IsRemovedStylesheet(e, isWebUri) then 0 else multiset(es)[e]
  {
    RemovalCounts(WithDefer(es), isWebUri);
    forall e | !IsScriptWithSrc(e)
      ensures multiset(WithoutLocalStylesheets(WithDefer(es), isWebUri))[e]
           == if IsRemovedStylesheet(e, isWebUri) then 0 else multiset(es)[e]
    {
      WithDeferKeepsOthers(es, e);
    }
  }

  /** After the rewrite every `script[src]` of the page, in `<head>` or `<body>`, carries `defer`. */
  lemma RewrittenPageDeferred(head: seq<Element>, body: seq<Element>, prefix: string, isWebUri: string -> bool)
    ensures forall e :: e in RewrittenHead(head, prefix, isWebUri) + RewrittenBody(body, isWebUri) && IsScriptWithSrc(e)
                        ==> HasDefer(e)
  {
    AllScriptsDeferred(head, isWebUri);
    AllScriptsDeferred(body, isWebUri);
  }

  /**
   * What a successful rewrite does to the page's other elements: the injected
   * link ends `<head>`, and every element that is not a `script[src]` occurs
   * as often as before, except that removable stylesheet links are gone and
   * the injected link is added once (so web-URI stylesheet links are kept
   * unchanged).
   */
  lemma RewriteGuarantees(head: seq<Element>, body: seq<Element>, prefix: string, isWebUri: string -> bool)
    ensures var h := RewrittenHead(head, prefix, isWebUri);
            h != [] && h[|h| - 1] == StyleLink(prefix)
    ensures var page := RewrittenHead(head, prefix, isWebUri) + RewrittenBody(body, isWebUri);
            forall e :: !IsScriptWithSrc(e) ==>
              multiset(page)[e]
              == (if IsRemovedStylesheet(e, isWebUri) then 0 else multiset(head + body)[e])
                 + (if e == StyleLink(prefix) then 1 else 0)
  {
    var kh, kb := WithoutLocalStylesheets(WithDefer(head), isWebUri), RewrittenBody(body, isWebUri);
    assert RewrittenHead(head, prefix, isWebUri) == kh + [StyleLink(prefix)];
    CleanedElements(head, isWebUri);
    CleanedElements(body, isWebUri);
    PageCounts(head, body, kh, kb, StyleLink(prefix), isWebUri);
  }

  lemma PageCounts(head: seq<Element>, body: seq<Element>, kh: seq<Element>, kb: seq<Element>, link: Element,
                   isWebUri: string -> bool)
    requires forall e :: !IsScriptWithSrc(e) ==>
               multiset(kh)[e] == if IsRemovedStylesheet(e, isWebUri) then 0 else multiset(head)[e]
    requires forall e :: !IsScriptWithSrc(e) ==>
               multiset(kb)[e] == if IsRemovedStylesheet(e, isWebUri) then 0 else multiset(body)[e]
    ensures forall e :: !IsScriptWithSrc(e) ==>
              multiset(kh + [link] + kb)[e]
              == (if IsRemovedStylesheet(e, isWebUri) then 0 else multiset(head + body)[e])
                 + (if e == link then 1 else 0)
  {
    assert multiset(kh + [link] + kb) == multiset(kh) + multiset{link} + multiset(kb);
    assert multiset(head + body) == multiset(head) + multiset(body);
  }

  /** When the injected href is not a web URI, the rewritten page holds exactly one copy of the injected link. */
  lemma ExactlyOneInjectedLink(head: seq<Element>, body: seq<Element>, prefix: string, isWebUri: string -> bool)
    requires !isWebUri(prefix + "/css/style.css")
    ensures multiset(RewrittenHead(head, prefix, isWebUri) + RewrittenBody(body, isWebUri))[StyleLink(prefix)] == 1
  {
    var s := StyleLink(prefix);
    assert Attr(s, "href") == Some(prefix + "/css/style.css");
    assert IsRemovedStylesheet(s, isWebUri);
    RemovalCounts(WithDefer(head), isWebUri);
    RemovalCounts(WithDefer(body), isWebUri);
  }

  /** With the real stylesheet manifest, a page linking a local `b.css` is rejected by the CSS check, naming `b.css`. */
  lemma UnlistedStylesheetRejected(isWebUri: string -> bool)
    requires !isWebUri("b.css")
    ensures VerifyPage([Element("link", map["rel" := "stylesheet", "href" := "b.css"])], isWebUri)
         == Failure(NotAllIncluded(Css, ["b.css"]))
  {
    var e := Element("link", map["rel" := "stylesheet", "href" := "b.css"]);
    assert [e][..0] == [];
    assert References([e], Css) == [Some("b.css")];
    UnlistedBasenameRejected(isWebUri);
  }

  /** A page whose only stylesheet is remote passes both checks. */
  lemma RemoteStylesheetPasses(url: string, isWebUri: string -> bool)
    requires isWebUri(url)
    ensures VerifyPage([Element("link", map["rel" := "stylesheet", "href" := url])], isWebUri) == Success(())
  {
  }

  /** The rewrite keeps a remote stylesheet link and puts the bundled one after it. */
  lemma RemoteStylesheetKept(url: string, prefix: string, isWebUri: string -> bool)
    requires isWebUri(url)
    ensures var e := Element("link", map["rel" := "stylesheet", "href" := url]);
            RewrittenHead([e], prefix, isWebUri) == [e, StyleLink(prefix)]
  {
  }
}
