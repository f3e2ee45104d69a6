# jraft site build: a Dafny model of the gulpfile logic

The site's build script (`gulpfile.js`) is mostly glue between gulp streams
and third-party minifiers. It holds three pieces of logic of its own, and this
project models them in Dafny and proves what they guarantee:

- **`concat(name)`** (module `Concat`): a transform stream. Each incoming
  file's contents is pushed onto a list of buffers, followed by a newline
  buffer. The `cwd`/`base` of the first file are kept. On flush it emits one
  file at `join(base, name)` whose contents are the concatenation of the buffers.
  It is modelled as the class `ConcatTransform`. Its fields are `buffers`,
  `meta` and the ghost list of received files, and its methods are `Transform`
  and `Flush`. `BuildStyles` is the `src(css).pipe(concat('style.css'))` client.
- **`verifyCSS` / `verifyJS`** (modules `Verify` and `Page`): collect the
  `href` of every `link[rel=stylesheet]` (or the `src` of every `script[src]`).
  Then drop missing references and those `isWebUri` accepts, and reduce the
  rest to basenames. The check throws unless each basename is the basename of
  a manifest entry. Both are the single function `Verify.Check`, given a
  manifest and an asset kind. `Page.VerifyAssets` applies it to a page's elements.
- **The page step of `build`** (module `Page`): validate CSS, then JS, and stop
  at the first failure. Then set `defer` on every `script[src]`, remove every
  `link[rel=stylesheet]` whose `href` is not a web URI, and append
  `<link rel="stylesheet" href="{prefix}/css/style.css">` to `<head>`. The
  page is the class `Document`. It holds the element records of `<head>` and
  `<body>` in document order, and its methods update them in place.
  `BuildPage` is the transform body.

`Paths` models Node's POSIX `path.basename` and the `path.join` that `concat`
uses. `Wrappers` holds `Option` (JavaScript `null`/`undefined`) and `Result`
(a thrown error).

External behaviour becomes a parameter:

- `isWebUri` (from the `valid-url` package) is a parameter `isWebUri: string -> bool` about which nothing is assumed.
- The page's `prefix` (`relative(dirname(file.path), file.base)`) is a string parameter.
- Files arrive as values of `Concat.File`.

Design notes on behaviour of the code that is easy to miss:

- The validation error lists every distinct local basename found on the page,
  in first-seen order (`[...paths]`), and not only the offending ones.
- A `link[rel=stylesheet]` without `href` is ignored by the validation,
  because `null` is filtered out. The rewrite still removes it, because
  `isWebUri(undefined)` is falsy.
- For a page in the base directory `path.relative` gives the empty string. The injected
  href is then `/css/style.css` rather than `./css/style.css`.
- `attr('defer', true)` stores the attribute value as the string `"true"`.

## Model

| member | source | states |
|---|---|---|
| `Paths.LastSegment` | gulpfile.js:114 | the last segment of a path never contains `/` |
| `Paths.LastSegmentIsLongestSlashFreeSuffix` | gulpfile.js:114 | the last segment is a suffix of the path, and the character before it, if any, is `/` |
| `Paths.StripTrailingSlashesIsPrefix` | gulpfile.js:114 | stripping trailing separators keeps a prefix that does not end in `/`, and removes only `/` characters |
| `Paths.Basename` | gulpfile.js:114 | `basename` never returns a string containing `/` |
| `Paths.BasenameOfSegment` | gulpfile.js:114 | a file name is its own basename, and it is also the basename of `dir/name` for any `dir` |
| `Paths.LastSegmentAfterSlash` | gulpfile.js:114 | a slash-free `f` is the last segment both of itself and of `dir + "/" + f` |
| `Paths.BasenameIdempotent` | gulpfile.js:114 | taking the basename of a basename changes nothing |
| `Paths.JoinBasename` | gulpfile.js:38 | the file `concat` emits has `name` as its basename, whatever `base` is |
| `Paths.Join` | gulpfile.js:38 | `join(base, name)` starts with `base`, ends with `name`, and puts exactly one `/` between them unless `base` is empty or already ends in `/` |
| `Paths.BasenameIgnoresDirectories` | gulpfile.js:114 | `../../css/webflow.css` and `css/webflow.css` both reduce to `webflow.css` |
| `Concat.FlattenFramed` | gulpfile.js:25-26 | concatenating the pushed buffers gives every input followed by one newline, in arrival order |
| `Concat.Flatten` | gulpfile.js:39 | `Buffer.concat` gives as many bytes as all buffers hold together |
| `Concat.FlattenAppend` | gulpfile.js:39 | concatenating two lists of buffers is concatenating each list and joining the results |
| `Concat.BundleLength` | gulpfile.js:39 | output length = sum of input lengths + number of inputs |
| `Concat.BundleAt` | gulpfile.js:24-39 | input `i` appears verbatim in the output at offset (bytes + newlines of inputs `0..i-1`), directly followed by a newline |
| `Concat.BundleExample` | gulpfile.js:25-26 | the inputs `a{}` and `b{}` give `a{}\nb{}\n` |
| `Concat.ConcatTransform.constructor` | gulpfile.js:19-21 | a new stream has no buffers, no meta and no received files |
| `Concat.ConcatTransform.Transform` | gulpfile.js:24-33 | appends the contents and a newline buffer; sets meta from this file only if none was set; keeps the stream invariant |
| `Concat.ConcatTransform.Flush` | gulpfile.js:35-42 | fails iff no file arrived; otherwise emits cwd/base of the first file, path `join(base, name)`, contents = the bundle of all received contents |
| `Concat.BuildStyles` | gulpfile.js:58-59 | streaming the stylesheets through `concat('style.css')` fails iff there are none; otherwise gives `join(base₀, "style.css")` holding their bundle |
| `Verify.LocalSetSnoc` | gulpfile.js:109-115 | appending one reference adds its basename to the local set iff it is local |
| `Verify.LocalBasenames` | gulpfile.js:109-115 | the basenames kept are exactly those of the non-null, non-web references |
| `Verify.Distinct` | gulpfile.js:109 | `new Set` keeps each element once: same members, no duplicates |
| `Verify.DistinctKeepsFirstSeenOrder` | gulpfile.js:109 | the distinct list is in first-occurrence order: of any two entries, the earlier first occurs in the input before the later does, as a `Set` iterates for `[...paths]` |
| `Verify.ManifestBasenames` | gulpfile.js:116 | `new Set(css.map((p) => basename(p)))`: which names it approves is stated by `ManifestInDirectory`, `CssManifestBasenames` and `JsManifestBasenames`; none contains `/`, as `Basename` ensures |
| `Verify.Check` | gulpfile.js:108-134 | succeeds iff every non-null, non-web reference's basename is a manifest basename; a failure has the checked kind, lists each local basename once, in the order of first occurrence among the references, and names at least one unapproved |
| `Verify.LocalBasenamesAppend` | gulpfile.js:110-114 | the kept basenames of two reference lists are the kept basenames of each, in order |
| `Verify.IsLocal` | gulpfile.js:113 | the filter `path != null && !isWebUri(path)`; what it keeps decides `Check`'s verdict and error, and `NonLocalRefsIgnored` states that what it drops never matters |
| `Verify.NonLocalRefsIgnored` | gulpfile.js:113 | inserting null or web-URI references anywhere changes neither the verdict nor the error |
| `Verify.SameBasenameSameVerdict` | gulpfile.js:114-117 | replacing a local reference by another local path with the same basename changes nothing |
| `Verify.ManifestInDirectory` | gulpfile.js:16-17 | a manifest of `dir/name` entries approves exactly the names |
| `Verify.ManifestOfThree` | gulpfile.js:16 | a three-entry manifest approves exactly the basenames of its three entries |
| `Verify.CssManifestBasenames` | gulpfile.js:16 | the stylesheet manifest approves exactly `normalize.css`, `webflow.css`, `jraft-landing.webflow.css` |
| `Verify.JsManifestBasenames` | gulpfile.js:17 | the script manifest approves exactly `webflow.js` |
| `Verify.SingleUnlistedRejected` | gulpfile.js:116-118 | a page with one local reference whose basename is unapproved fails with the checked kind, naming exactly that basename |
| `Verify.RejectsUnlistedStylesheet` | gulpfile.js:116-118 | against a manifest `[a.css]`, a local `b.css` fails with a CSS error naming `b.css` |
| `Verify.UnlistedBasenameRejected` | gulpfile.js:16 | against the real stylesheet manifest, a local `b.css` fails with a CSS error naming `b.css` |
| `Page.References` | gulpfile.js:110-112 | the references collected are exactly the `href`/`src` of the selected elements |
| `Page.ReferencesAppend` | gulpfile.js:110-112 | references are collected element by element, so they keep document order and repeats |
| `Page.IsScriptWithSrc` | gulpfile.js:124 | the selector `script[src]` only matches scripts that have a `src`, so the null filter never drops one |
| `Page.IsStylesheetLink` | gulpfile.js:110 | the selector `link[rel=stylesheet]`; no element matches both it and `script[src]` |
| `Page.VerifyAssets` | gulpfile.js:108-134 | `verifyCSS`/`verifyJS` succeed iff every selected local reference has an approved basename; a failure carries the kind and lists each distinct local basename once, in first-seen document order, at least one of them unapproved |
| `Page.VerifyPage` | gulpfile.js:77-82 | passes iff both checks pass; when the CSS check fails its error is the result; when it passes the result is the JS check's, so a JS error is reported only after CSS passed |
| `Page.WithDefer` | gulpfile.js:83 | each `script[src]` gains `defer`, with no other change; every other element is left as it was |
| `Page.IsRemovedStylesheet` | gulpfile.js:84-85 | a `link[rel=stylesheet]` whose href is missing or not a web URI; `RemovalCounts` states that removal deletes exactly these |
| `Page.RemovalCounts` | gulpfile.js:84-86 | removal deletes every stylesheet link whose href is missing or not a web URI and keeps every other element as often as it occurred |
| `Page.WithoutLocalStylesheets` | gulpfile.js:84-86 | the removal keeps only elements of the input, none of them a link whose href is missing or not a web URI, and never lengthens the list |
| `Page.StyleLink` | gulpfile.js:88 | the appended element is a `link[rel=stylesheet]` whose href is `prefix + "/css/style.css"` |
| `Page.Document.constructor` | gulpfile.js:76 | a document holds the given head and body elements |
| `Page.Document.DeferScripts` | gulpfile.js:83 | head and body become their deferred versions |
| `Page.Document.RemoveLocalStylesheets` | gulpfile.js:84-86 | head and body lose their removable stylesheet links |
| `Page.Document.AppendToHead` | gulpfile.js:88 | the element is added at the end of head; body unchanged |
| `Page.BuildPage` | gulpfile.js:76-88 | result is the fail-fast validation; on failure the page is untouched; on success head and body are the rewritten ones |
| `Page.AllScriptsDeferred` | gulpfile.js:83-86 | after the rewrite every `script[src]` has `defer` |
| `Page.WithDeferKeepsOthers` | gulpfile.js:83 | deferring keeps every element that is not a `script[src]`, as often as it occurred |
| `Page.WithDeferIdempotent` | gulpfile.js:83 | setting `defer` twice is setting it once |
| `Page.RemovalKeepsOrder` | gulpfile.js:84-86 | removal works element by element, so the kept elements keep their order |
| `Page.CleanedElements` | gulpfile.js:83-86 | on one element list, after deferring and removal every non-script element occurs as often as before, except that removable links are gone |
| `Page.RewriteGuarantees` | gulpfile.js:83-88 | the injected link ends the head; on the whole page every non-script element occurs as often as before, except that removable links are gone and the injected link is added once, so web-URI links are kept unchanged |
| `Page.RewrittenPageDeferred` | gulpfile.js:83 | after the rewrite every `script[src]` of the whole page, head and body, carries `defer` |
| `Page.ExactlyOneInjectedLink` | gulpfile.js:88 | when the injected href is not a web URI, the page holds exactly one copy of the injected link |
| `Page.UnlistedStylesheetRejected` | gulpfile.js:77-81 | a page linking a local `b.css` fails the CSS check with an error naming `b.css` |
| `Page.RemoteStylesheetPasses` | gulpfile.js:77-82 | a page whose only stylesheet is a web URI, whatever the URI, passes both checks |
| `Page.RemoteStylesheetKept` | gulpfile.js:84-88 | the rewrite keeps a web-URI stylesheet link, whatever the URI, followed by the injected one |

## Left out

- `Paths.Join`: agrees with `path.join` when `base` is empty or already normalised and neither `.` nor `./` (Vinyl gives an absolute, normalised `base` under `src`). It differs for a `base` that normalising would change, because `path.join` collapses `.` and `..` segments and repeated separators and the model does not: `Join(".", "style.css")` and `Join("./", "style.css")` are `./style.css` where Node gives `style.css`, and `a/../b`, `./a` or `a//b` keep their form.
- `Paths.Basename`: only the POSIX `path` module is modelled (separator `/`). The Windows variant is not part of this model.
- `Concat.ConcatTransform.Transform`: a Vinyl file whose contents are `null` or a stream is not modelled. Contents are always a byte sequence.
- `Page.IsStylesheetLink`: the selector `link[rel=stylesheet]` is matched on the exact value `stylesheet`. Case-insensitive attribute matching in the selector engine is not modelled, and tag names are taken as already lower-case.
- The page is a flat list of head elements and a flat list of body elements. Cheerio's parsing (`cheerio.load`), the nesting of elements and serialising with `$.html()` are not modelled.
- `prefix` is a parameter. `relative(dirname(file.path), file.base)` is not modelled.
- `isWebUri` is left uninterpreted. The `valid-url` package is not part of this model.
- The text of the thrown message (`not all css include` + JSON) is represented by the error's kind and its list of basenames.
- Minification is not modelled: `minifyJs`/terser, cssnano and html-minifier are foreign libraries.
- Filesystem I/O is not modelled: `cleanup` (`del('dist')`), `link` (symlinks), `src` and `dest`.
- Task ordering is not modelled: `series`/`parallel` are gulp scheduling.
- Node stream behaviour (async callbacks, back-pressure) is not modelled. Each `transform`/`flush` call is one sequential method call.
- What happens to the rest of the HTML stream after one page's error is not modelled, and neither are the pages written before it.
- `js/tippy-init.js` is a single configuration call to an external tooltip library and is not part of this model.
