# ivan-golubev.github.io: the logic of the site's two scripts

This project models the two scripts of the personal site that hold logic:

- `scripts/main.js` runs on the blog pages. On load, `init` reads the path. The index page (`/`, `/index.html` or the empty path) hides every `.hide-on-index-page` block. Any other page calls `setupCommentLoader`. That function makes a closure holding the flag `commentSectionAdded` and returns `observeBottomMarker`. Calling `observeBottomMarker` starts an `IntersectionObserver` on `#bottom-marker`. The observer's callback appends the script of the utterances comment widget to the body, the first time the browser reports the marker intersecting the viewport, and then stops observing the marker.
- `js/main.js` runs on the home page. `obf0` to `obf4` assemble the email link and the Skype link from reversed fragments and character codes, so the address never appears in the page literally. `checkSize` gives five kinds of element a `*_small` class in windows narrower than 500 pixels, and takes that class away in windows 500 pixels or wider.

The modules:

- `JsBuiltins` (`js_builtins.dfy`): the JavaScript built-ins those scripts are made of. These are `String.fromCharCode`, `split('')`, `Array.prototype.reverse` (in place, on an `array`), `join`, `indexOf` and `replace` with a string pattern.
- `ContactLinks` (`contact_links.dfy`): `obf0` to `obf4`, with their exact results. The link they build is proved equal to the `mailto:` layout of section 2 of RFC 6068 and against the `skype:` URI layout.
- `ResponsiveLayout` (`responsive_layout.dfy`): `checkSize`, on an array of class sets. `Resized` is its reference definition.
- `BlogPage` (`blog_page.dfy`): the comment loader and the page-kind dispatch.
  - `CommentLoader` is a class holding the closure's state: the flag, and the set of nodes each observer created so far watches. It acts on a `Document` class whose body it appends to.
  - `LoaderState`, `Step` and `Run` describe the same loader as values, for the lemmas about sequences of callbacks.
  - Every method of `CommentLoader` is tied to `Step` by its contract.

The browser is a parameter of the model:

- the window width is an argument of `checkSize`;
- the path is a field of the `Document`;
- the page's elements are the `Document`'s `nodes` array;
- the observer's callback is a method the environment may call with any batch of entries. The lemmas about unobserving and a missing marker assume more: each batch is non-empty, and about nodes that observer watches (`Deliverable`).

## Model

| member | source | states |
|---|---|---|
| JsBuiltins.CodeUnit | js/main.js:47 | the character `fromCharCode` makes of a number has code `x mod 2^16` (ToUint16) |
| JsBuiltins.FromCharCode | js/main.js:32 | `String.fromCharCode(c0, c1, …)` has one code unit per argument, each the argument modulo 2^16 |
| JsBuiltins.ReverseInvolution | js/main.js:26 | reversing twice gives back the original |
| JsBuiltins.Reverse | js/main.js:26 | defines the reversal of a sequence: element `i` is element `n-1-i` of the original |
| JsBuiltins.Split | js/main.js:26 | defines `s.split('')`: one single-character string per character of `s` |
| JsBuiltins.Join | js/main.js:33 | defines `parts.join(sep)`: the parts with `sep` between neighbours, `""` for no parts |
| JsBuiltins.ReverseString | js/main.js:26 | defines the idiom `s.split('').reverse().join('')` as the composition of the three |
| JsBuiltins.ReverseInPlace | js/main.js:33 | `arr.reverse()` leaves the array holding its old contents in reverse order |
| JsBuiltins.JoinSplit | js/main.js:26 | `s.split('').join('')` is `s` |
| JsBuiltins.ReverseStringReverses | js/main.js:26 | `s.split('').reverse().join('')` reverses `s` character by character |
| JsBuiltins.IndexOf | js/main.js:34 | `indexOf` gives the first index at or after the start where the pattern occurs, or -1 exactly when it occurs nowhere there |
| JsBuiltins.Replace | js/main.js:34 | `replace` with a string pattern replaces only the first occurrence, and gives back the string unchanged when there is none |
| ContactLinks.Obf4 | js/main.js:46-48 | `obf4(x)` is the one-character string whose code is `x mod 2^16` |
| ContactLinks.MapObf4 | js/main.js:19 | defines `codes.map(obf4)`: one `obf4` string per code |
| ContactLinks.JoinMapObf4 | js/main.js:19 | `codes.map(obf4).join('')` is `String.fromCharCode(...codes)`, for any codes |
| ContactLinks.Obf4Words | js/main.js:19-52 | the three arrays of codes map to `"moc"`, `"jb"` and `"golubev"` |
| ContactLinks.CharCodes | js/main.js:32-39 | the codes 109, 64, 115 and 63 are `m`, `@`, `s` and `?` |
| ContactLinks.Obf0Literals | js/main.js:18-24 | the array literal of `obf0`: the `obf4` word for `[109,111,99]`, then `liamg`, `bps`, `vebulog`, `navi` |
| ContactLinks.Obf0Reversible | js/main.js:18-27 | reversing each of the five literals gives `["com","gmail","spb","golubev","ivan"]`, and reversing each of those gives the literals back |
| ContactLinks.ReverseEach | js/main.js:25-27 | defines what `obf0`'s loop leaves in the array: every part reversed |
| ContactLinks.ReverseEachInvolution | js/main.js:25-27 | running that loop twice gives back the original parts |
| ContactLinks.ReverseParts | js/main.js:25-27 | the loop of `obf0` leaves every element of the array reversed, in place |
| ContactLinks.Obf0 | js/main.js:17-29 | `obf0()` returns a fresh array holding the reversal of each literal, which is `["com","gmail","spb","golubev","ivan"]` |
| ContactLinks.Obf1 | js/main.js:31-35 | `obf1(arr)` reverses `arr` in place and returns `mailto:` followed by the dotted join with its first `.gm` made `@gm` |
| ContactLinks.MailtoScheme | js/main.js:32-34 | reversing `":otlia" + fromCharCode(109)` gives the scheme `mailto:` |
| ContactLinks.AtSign | js/main.js:34 | the replacement `fromCharCode(64) + 'gm'` is `@gm` |
| ContactLinks.JoinedAddress | js/main.js:33 | the reversed parts joined with dots are `ivan.golubev.spb.gmail.com` |
| ContactLinks.FirstGmAt16 | js/main.js:34 | the first `.gm` of that string is the one before `gmail`, at index 16 |
| ContactLinks.EmailAddress | js/main.js:31-35 | with the first `.gm` replaced, the address is `ivan.golubev.spb@gmail.com` |
| ContactLinks.SubjectWord | js/main.js:38-39 | the reversed `gg` of `obf2` is `subject` |
| ContactLinks.Obf2 | js/main.js:37-40 | `obf2()` is `?subject=Hello%20Ivan` |
| ContactLinks.EmailLinkIsMailto | js/main.js:43 | the link is the RFC 6068 `mailto:` URI of the address with the single header field `subject=Hello%20Ivan` |
| ContactLinks.EmailLink | js/main.js:43 | `obf1(obf0()) + obf2()` is `mailto:ivan.golubev.spb@gmail.com?subject=Hello%20Ivan`, the RFC 6068 URI of that address and subject |
| ContactLinks.SkypeAccount | js/main.js:52 | the reversed dotted join of `obf3` is `ivan.golubev.spb` |
| ContactLinks.Obf3 | js/main.js:50-54 | `obf3()` is the Skype URI `skype:live:ivan.golubev.spb?chat` for account `live:ivan.golubev.spb` and action `chat` |
| ResponsiveLayout.Resized | js/main.js:67-84 | below 500 pixels, every element with a selector class has its `*_small` class; at 500 or more it has none; elements without the selector keep theirs; no other class changes |
| ResponsiveLayout.ResizedIdempotent | js/main.js:71-83 | running `checkSize` twice at the same width is running it once |
| ResponsiveLayout.Pass | js/main.js:72 | defines one `$('.sel').addClass(cls)` or `removeClass(cls)` on one element: only an element with class `sel` gains or loses `cls` |
| ResponsiveLayout.Passes | js/main.js:72-82 | defines several such calls, one after another, in order |
| ResponsiveLayout.PassesSelected | js/main.js:71-83 | five `addClass` (or `removeClass`) calls, one after another, add (or remove) at once every class whose selector the element has |
| ResponsiveLayout.CheckSizePasses | js/main.js:71-83 | the source's sequence of calls on an element amounts to `Resized` |
| ResponsiveLayout.UnfoldToggles | js/main.js:72-82 | the fold over the five pairs is the source's five calls in its order |
| ResponsiveLayout.AddClass | js/main.js:72 | `$('.sel').addClass(cls)` adds `cls` to exactly the elements with class `sel` |
| ResponsiveLayout.RemoveClass | js/main.js:78 | `$('.sel').removeClass(cls)` removes `cls` from exactly the elements with class `sel` |
| ResponsiveLayout.CheckSize | js/main.js:67-84 | every element ends up with `Resized` of its classes at that width; the height plays no part |
| BlogPage.CreateElement | scripts/main.js:2 | `createElement('script')` has that tag and no attribute |
| BlogPage.SetAttribute | scripts/main.js:3-8 | `setAttribute` sets one attribute to the value, keeps the tag and every other attribute, and adds the name to the names set |
| BlogPage.BuildCommentsScript | scripts/main.js:2-8 | defines `createElement('script')` followed by the six `setAttribute` calls, in order |
| BlogPage.BuildIsCommentsScript | scripts/main.js:2-8 | the element the six `setAttribute` calls build is `CommentsScript` |
| BlogPage.CommentsScriptAttributes | scripts/main.js:2-8 | the widget's script element has tag `script` and exactly the six attributes `src`, `repo`, `issue-term`, `theme`, `crossorigin` and `async`, with the source's values |
| BlogPage.AppendCommentsDiv | scripts/main.js:1-10 | `appendCommentsDiv()` appends exactly that element to the body and changes nothing else |
| BlogPage.GetElementById | scripts/main.js:28 | `getElementById` finds the first node with that id, or `null` exactly when there is none or the id is empty |
| BlogPage.Step | scripts/main.js:19-28 | the flag never reverts. It flips exactly on a callback whose first entry is intersecting while the flag is false. The body then grows by the widget's script, and by nothing otherwise. A non-triggering callback changes nothing. A trigger stops observing the entry's target. `observeBottomMarker` adds a new observer watching the marker, if there is one |
| BlogPage.Run | scripts/main.js:18-28 | defines a sequence of `observeBottomMarker` calls and callbacks, applied one `Step` after another |
| BlogPage.Triggers | scripts/main.js:21 | the callback's test: the observer exists, the batch is non-empty, its first entry is intersecting, and the comments are not yet added |
| BlogPage.Fresh | scripts/main.js:13-14 | the closure's initial state: the flag false, no observer yet, and the body as it is |
| BlogPage.AtMostOneInjection | scripts/main.js:13-25 | over any sequence of events, the flag never reverts, and the script is appended at most once: exactly when the flag went from false to true |
| BlogPage.LaterEntriesIgnored | scripts/main.js:20-21 | only the first entry of a batch matters |
| BlogPage.QuietCallbacksChangeNothing | scripts/main.js:21 | any number of callbacks whose first entry is not intersecting change neither the flag, nor the body, nor what is observed |
| BlogPage.CallbacksAfterInjectionChangeNothing | scripts/main.js:21-25 | once the flag is set, callbacks change nothing at all |
| BlogPage.NoObserverNoInjection | scripts/main.js:12-31 | a loader whose `observeBottomMarker` is never called never appends anything, whatever callbacks are attempted |
| BlogPage.UnobserveAfterTrigger | scripts/main.js:24 | after the trigger the observer no longer watches the target, so it cannot deliver another entry about it |
| BlogPage.MissingMarkerNoInjection | scripts/main.js:27-28 | on a page without `#bottom-marker`, no possible sequence of events appends the comments |
| BlogPage.MarkerToggling | scripts/main.js:19-28 | the marker observed, then reported intersecting, not intersecting and intersecting again, appends the comments exactly once |
| BlogPage.CommentLoader.constructor | scripts/main.js:12-14 | `setupCommentLoader()` starts with the flag false and no observer |
| BlogPage.CommentLoader.ObserveBottomMarker | scripts/main.js:18-29 | `observeBottomMarker()` is `Step` of an `Observe` of what `getElementById('bottom-marker')` finds; a missing marker ends in a `TypeError` after the observer was created |
| BlogPage.CommentLoader.Callback | scripts/main.js:19-26 | the callback is `Step` of a `Notify` with those entries; an empty batch ends in a `TypeError` and changes nothing |
| BlogPage.HideOnIndex | scripts/main.js:33-38 | every `.hide-on-index-page` block gets `display: none`; every other node is as it was |
| BlogPage.HideOnIndexIdempotent | scripts/main.js:33-38 | hiding the blocks twice is hiding them once |
| BlogPage.HideBlocksAtIndexPage | scripts/main.js:33-38 | `hideBlocksAtIndexPage()` leaves the nodes as `HideOnIndex` of their old value |
| BlogPage.IsRootPath | scripts/main.js:42 | the path is the index page exactly when it is `/`, `/index.html` or `""` |
| BlogPage.Init | scripts/main.js:40-48 | on `/`, `/index.html` or the empty path, the blocks are hidden and no loader is made. On any other path a loader is made and left with no observer. The nodes are then untouched, and the body never changes |
| BlogPage.InitWithObserver | scripts/main.js:40-48 | `init` calling the function `setupCommentLoader` returns. Off the index page the loader is a fresh loader observing the marker, and a page without `#bottom-marker` ends in `TypeError` |
| BlogPage.IntendedInitLoadsComments | scripts/main.js:30 | when that function is called, the first callback whose entry is intersecting appends the comments, and no later callback appends another |

## Left out

- jQuery, `$.cacheImage`, `textillate`, the tooltips, the registration of the click, resize and load handlers, and the navigation by assigning `window.location`: browser and library plumbing. The model covers the strings the handlers assign and the class rule they run.
- The `IntersectionObserver` API and its `threshold: 1`: the browser is the environment. `isIntersecting` is the browser's flag, "the target intersects the viewport". The threshold only decides when entries are delivered, and `observe()` always delivers a first entry, so a marker partly visible at load already triggers. The callback method accepts any batch; `UnobserveAfterTrigger` and `MissingMarkerNoInjection` assume `Deliverable` batches: non-empty, and only about nodes that observer watches.
- `js/main2.js`, `scripts/theme_switch.js` and `scripts/generate.py` are not part of this model. They are a template fetch, a single media-query read, and a file-system build script.
- `newScript` in `appendCommentsDiv` is an implicit global. The global it leaves behind is not modelled.
- Attribute order: an element's attributes are a map from name to value. The order in which `setAttribute` first set them is not kept.
- Class lists are sets. Their order in the `class` attribute is not modelled.
- The page's nodes are an array with a fixed set of elements, which scripts only change in place. Nodes are identified by their index in that array, and `document.body`'s children are the sequence of elements scripts appended.
- Within one callback, the order of setting the flag, appending and unobserving is not observable in the model, since nothing runs between them. Only the state after the call is stated.
- JsBuiltins.Replace: `$` substitution patterns in the replacement string are not modelled, so the replacement must not contain `$`. The only replacement used is `@gm`.
- Strings are sequences of `char`, one per UTF-16 code unit. Characters outside the Basic Multilingual Plane and surrogate pairs cannot be represented, so `split('')` and `reverse` on such strings are not modelled. Every string the scripts build is ASCII.
- JsBuiltins.FromCharCode: a Dafny `char` cannot hold a surrogate, so codes whose ToUint16 value is a surrogate are excluded. Numbers that are not integers are not modelled. All codes the scripts use are ASCII.
- ContactLinks.Obf4: same restriction as `FromCharCode`.
- BlogPage.CommentLoader.Callback: requires that the observer it is called for exists. The browser only calls callbacks of observers that were created.
- BlogPage.Step: a `Notify` for an observer that does not exist counts as no event, following the same reasoning.
- ResponsiveLayout.CheckSize: the window's height is read by the source and never used. It is a parameter that no contract mentions.

## Findings

| source | as written | input that shows it | evidently intended | confidence | as-written member | corrected member |
|---|---|---|---|---|---|---|
| scripts/main.js:46 | `init` calls `setupCommentLoader()` and drops the `observeBottomMarker` it returns (scripts/main.js:30), so no observer is ever created and the comments never load | any page whose path is not `/`, `/index.html` or empty, with the marker intersecting the viewport | `init` also calls the returned function, so that the marker is observed | medium, not executed | BlogPage.Init, BlogPage.NoObserverNoInjection | BlogPage.InitWithObserver, BlogPage.IntendedInitLoadsComments |
