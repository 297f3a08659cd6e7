# Atelier Renaissance site scripts — a Dafny model

This project models the two pieces of logic in the site's front-end scripts.

- **animations.js**, in module `Animations` (`animations.dfy`). `ScrollAnimations` watches the page's cards, `data-animate` elements, section titles and images with an IntersectionObserver. When an observed element first intersects the viewport, the script picks one of two reveal classes for it. The choice follows a four-branch priority chain: section title, image, card, anything else. It then sets the element's inline opacity to `'1'`, except for section titles, and stops observing it. The same file also has two smaller rules. A focus/blur rule toggles the `focused` class on a form field's parent. A click guard decides when an in-page anchor scrolls smoothly instead of following the link.
- **js/script.js**, in module `Navigation` (`navigation.dfy`). The mobile menu is three class flags that a hamburger click toggles together and a navigation-link click clears. On load, the navigation link whose `href` equals the current page gets the class `active`. The current page is the last `/`-separated segment of the pathname, or `index.html` when that segment is empty.

How the page is represented:

- The page is a `Document` object. It holds its elements as records (`Element`) in document order. An element is identified by its index, so a `querySelectorAll` becomes a filter over the indices.
- The observer is a `ScrollAnimations` object with the set of watched indices. It keeps a reference to the document.
- `init` and the intersection callback are methods with loops. Their postconditions tie the new page and the new watched set to pure reference functions: `PreparedAll` and `WatchedIds` for `init`, `AfterBatch` for the callback. Lemmas about those functions state the promised properties.
- Anything the browser computes comes in as data: whether an entry intersects, whether `closest('section')` finds a section, and what `querySelector(href)` returns.

The classification is total and exclusive. An image fades even when it carries a card class. A section title keeps its inline opacity. The callback's effect is independent of entry order and of repeated entries, because revealing an element twice is the same as revealing it once. Suppose each callback reports only elements that are still observed, as the IntersectionObserver platform guarantees. Then every element is revealed at most once, and no later callback reveals or changes it again.

Facts about the scripts that the model reflects:

- The scripts have no reduced-motion handling.
- The scripts have no fallback for a missing IntersectionObserver.
- The callback does not check whether a target was already revealed. A repeated intersecting entry in one batch runs the branch again. `RevealIsIdempotent` shows that this second run changes nothing.
- A section title keeps whatever inline opacity it had.

One consequence of the code as written is proved, not corrected. Suppose an `h2` inside a section also carries one of the card classes and has no `data-animate`. `init` sets its inline opacity to `'0'`, and the section-title branch never sets it back, so its inline opacity stays `'0'` after its reveal. This is `RevealedAfterInitOpacity` and `CardTitleKeepsZeroOpacity`.

## Model

| member | source | states |
|---|---|---|
| `Animations.Classify` | animations.js:54-68 | Every element takes exactly one branch. The section-title branch is taken exactly for an H2 inside a section. The result slides up exactly for a section title, or for a card-classed element that is not an IMG. An IMG always fades. |
| `Animations.Revealed` | animations.js:53-68 | After the reveal, the chosen reveal class is in the element's class list and no other class is added. An element whose markup already carries that class gains nothing. The chosen class is `scroll-animate-slide-up` for a section title or a non-image card, and `scroll-animate-fade` otherwise. Its inline opacity becomes `'1'`, except for a section title, which keeps its inline opacity. No other field changes. |
| `Animations.RevealIsExclusive` | animations.js:54-68 | Suppose the element carried neither reveal class before. Then after the reveal it has exactly one of the two reveal classes, and exactly one new class in all. |
| `Animations.RevealIsIdempotent` | animations.js:54-68 | Revealing an element a second time changes nothing: the classes the reveal adds never change which branch is taken. |
| `Animations.Prepared` | animations.js:27-30 | The inline opacity is forced to `'0'` exactly for an element matched by the card/`data-animate` selector that has no `data-animate` attribute. No other field changes. |
| `Animations.WatchedIds` | animations.js:21-45 | The set `init` observes is the union of its three selections. An element is watched exactly when it is a card or `data-animate` element, a `section h2`, or an `img`. |
| `Animations.PreparedAll` | animations.js:25-30 | `init`'s effect on the page: every element is replaced by its `Prepared` form, and the page keeps its length. |
| `Animations.RevealedAfterInitOpacity` | animations.js:25-68 | Take a watched element prepared by `init` and then revealed. Its inline opacity is `'1'` exactly when it is not a section title, or when it is a section title that `init` left at inline opacity `'1'`. A card-classed section title without `data-animate` ends at inline opacity `'0'`. |
| `Animations.CardTitleKeepsZeroOpacity` | animations.js:27-55 | A concrete `h2.service-card` inside a section is watched. After its reveal it has the slide-up class and inline opacity `'0'`. |
| `Animations.RevealedInMembers` | animations.js:49-50 | An element is revealed by a batch exactly when some intersecting entry of the batch names it. |
| `Animations.AfterBatch` | animations.js:48-74 | The reference definition of one callback reveals each intersecting target once and unobserves it. The page keeps its length, the watched set only shrinks, and no intersecting target stays observed. |
| `Animations.AfterBatchPointwise` | animations.js:48-74 | A page and watched set that agree with the reference callback element by element are the reference callback's result. |
| `Animations.BatchEffect` | animations.js:49-73 | After a callback, every intersecting entry's target is unobserved. An element that no intersecting entry names keeps its record and its observation. The watched set only shrinks. |
| `Animations.UnobservedIsFrozen` | animations.js:71 | Assume every callback reports only observed elements. Then no later callback reveals or changes an unobserved element. |
| `Animations.RevealAtMostOnce` | animations.js:71 | Under the same assumption, any series of callbacks reveals each element at most once. An element that was not observed at the start is never revealed. |
| `Animations.Focused` | animations.js:136-138 | On focus, the field's parent, if it has one, gains `focused` and nothing else changes. Every other element is unchanged. |
| `Animations.Blurred` | animations.js:140-143 | On blur, the parent keeps `focused` exactly when the field's value is non-empty and the parent had `focused`. Its other classes are unchanged, and so is every other element. |
| `Animations.FocusThenBlur` | animations.js:136-143 | After a focus and then a blur, the parent has `focused` exactly when the field's value is non-empty. |
| `Animations.Document.OnFocus` | animations.js:136-138 | The focus listener leaves the page equal to `Focused` of the old page. |
| `Animations.Document.OnBlur` | animations.js:140-143 | The blur listener leaves the page equal to `Blurred` of the old page. |
| `Animations.ScrollAnimations.constructor` | animations.js:7-17 | Creating the controller runs `init` on a fresh, empty watched set. It watches exactly `WatchedIds` of the page and leaves the page as `PreparedAll` of it. |
| `Animations.ScrollAnimations.Init` | animations.js:19-46 | `init` adds `WatchedIds` of the page to the watched set and replaces every element by its `Prepared` form. |
| `Animations.ScrollAnimations.ObserveAnimated` | animations.js:21-32 | The first loop sets inline opacity `'0'` on the matched elements that have no `data-animate`, and it observes every matched element. |
| `Animations.ScrollAnimations.ObserveWhere` | animations.js:35-45 | The second and third loops observe every element their selector matches and change nothing else. |
| `Animations.ScrollAnimations.HandleIntersection` | animations.js:48-74 | The sequential callback over a batch gives the same page and watched set as `AfterBatch`, whatever the order of the entries and however often a target repeats. |
| `Animations.ScrollAnimations.RevealTarget` | animations.js:51-71 | One intersecting entry replaces its target by `Revealed` of it and unobserves it. |
| `Animations.OnAnchorClick` | animations.js:90-99 | `preventDefault` is called and the page scrolls exactly when the href is not `'#'` and the target is found. An href that is not a valid selector throws, and the link is followed. Otherwise nothing happens. |
| `Navigation.Split` | js/script.js:18 | `split('/')` returns at least one piece, and no piece contains `/`. |
| `Navigation.JoinSplit` | js/script.js:18 | Joining the pieces of a split with the separator gives back the original string. |
| `Navigation.SplitJoin` | js/script.js:18 | Splitting a join of separator-free pieces gives back the pieces. |
| `Navigation.LastPieceIsLastSegment` | js/script.js:18 | `split(sep).pop()` is the suffix without a separator that either is the whole string or follows a separator. It is empty exactly when the string is empty or ends with the separator. |
| `Navigation.CurrentPage` | js/script.js:18 | The current page is never empty and never contains `/`. |
| `Navigation.CurrentPageIsLastSegment` | js/script.js:18 | For a pathname that is empty or ends with `/`, the current page is `index.html`. Otherwise it is the text after the last `/`, or the whole pathname when there is no `/`. |
| `Navigation.PageAfterLastSlash` | js/script.js:18 | For any directory part and any non-empty file name without `/`, the current page of `dir + "/" + file` is the file name. |
| `Navigation.CurrentPageExamples` | js/script.js:18 | `"/"` gives `index.html` and `"/a/b.html"` gives `b.html`. |
| `Navigation.LinkMatches` | js/script.js:23 | The marking test, with both disjuncts as written, holds only for a link that has an href. For a non-empty current page it holds exactly when the href equals the page. |
| `Navigation.Marked` | js/script.js:22-24 | One iteration of the marking loop keeps the href and adds at most `active`. Afterwards the link has `active` exactly when the test holds or it had `active` before. A link that fails the test is unchanged. |
| `Navigation.MarkedAll` | js/script.js:21-25 | The whole marking loop applies `Marked` to every link and keeps their number. |
| `Navigation.MarkingIsHrefEquality` | js/script.js:21-25 | The `currentPage === ''` disjunct never holds, so a link matches exactly when its href equals the current page. Afterwards a link has `active` exactly when it matched or already had it. Marking only adds `active`, hrefs never change, and a link that does not match is unchanged. |
| `Navigation.Page.MarkActiveLinks` | js/script.js:17-26 | The marking loop leaves the links equal to `MarkedAll` for the current page of the pathname. The menu flags are unchanged. |
| `Navigation.Toggled` | js/script.js:3-7 | A hamburger click negates each of the three flags. |
| `Navigation.Closed` | js/script.js:10-14 | A navigation-link click leaves all three flags false, from any state. |
| `Navigation.ToggleProperties` | js/script.js:3-7 | Two hamburger clicks restore the menu. The flags are in lockstep after a click exactly when they were before it. |
| `Navigation.CloseProperties` | js/script.js:10-14 | Closing is idempotent and puts the flags in lockstep from any state. |
| `Navigation.ClicksKeepLockstep` | js/script.js:3-14 | From a state in lockstep, every series of hamburger and navigation-link clicks keeps the three flags in lockstep. |
| `Navigation.OpenIffOddToggles` | js/script.js:3-14 | Start with the menu closed. After any series of clicks, all three flags are true exactly when an odd number of hamburger clicks followed the last navigation-link click. Otherwise all three are false. |
| `Navigation.Page.OnHamburgerClick` | js/script.js:3-7 | The hamburger listener leaves the menu equal to `Toggled` of the old menu and does not touch the links. |
| `Navigation.Page.OnNavLinkClick` | js/script.js:10-14 | The navigation-link listener leaves the menu equal to `Closed` of the old menu and does not touch the links. |

## Left out

- IntersectionObserver geometry and scheduling are not modelled: the `threshold` of 0.1, the `rootMargin`, and when callbacks fire. Whether an entry intersects is an input.
- DOM querying is not modelled: `querySelectorAll`, `closest('section')` and `querySelector(href)` are given as data. The model keeps each element's section flag, the document order and the result of the target lookup.
- The `willChange` style hints (animations.js:29, 43) are not modelled, because they have no behavioural effect.
- `scrollIntoView`, event-listener registration and the `readyState`/`DOMContentLoaded` start-up are not modelled: animations.js:78-84 and 124-130, and in js/script.js the listener registrations at lines 3 and 9-10 and the `DOMContentLoaded` registration at line 17, whose callback is `MarkActiveLinks`. They are platform plumbing. The model's listeners are the methods that these registrations call.
- `ListAnimations` (animations.js:105-121) is not modelled. Its animation string is built from the floating-point delay `0.1 * index`.
- The model assumes that both the hamburger and `#main-nav` exist. A page missing either one is not modelled, and the two cases behave differently:
  - Without the hamburger, the registration at js/script.js:3 throws. Lines 9-27 then never run, so neither the navigation-link close listeners nor the `DOMContentLoaded` marking (`MarkActiveLinks`) is registered.
  - Without `#main-nav`, no registration throws: the hamburger listener is registered, and the `#main-nav a` selection at js/script.js:9 is empty. Each hamburger click toggles `active` (line 4) and then throws at line 5, so `no-scroll` (line 6) is never toggled. `active` and `no-scroll` then drift apart, and the lockstep of `ClicksKeepLockstep` does not hold on such a page.
- The stylesheet behind the reveal classes and `focused` is not modelled. The model tracks the inline `style.opacity` and the class lists, not what is rendered. A CSS animation attached to a reveal class can override the inline opacity.
- `Animations.RevealAtMostOnce` and `Animations.UnobservedIsFrozen` assume that each callback reports only elements that are still observed. The script itself does not check this. A target repeated within one batch is processed again, but `RevealIsIdempotent` shows that this changes nothing.
