# ui8 page scripts: a Dafny model

This project models the logic behind the page scripts of the ui8 Webflow site. Each source file has a module of its own:

- **src/main.js** has three modules.
  - `SmoothScroll` covers the smooth-scroll (Lenis) handle, the Barba page-transition hooks and views, and the browser-history guard.
  - `PageRules` covers the `prevent` rule, the visibility test and layout choice for section snapping, and the transition marker.
  - `ButtonStagger` and `ScriptLoader` cover the per-character button splitter and the script-loading promise cache with its dotted global lookup.
- **src/cursor-trail.js** is the image-trail state machine (`ImageTrail`).
- **src/animations.js** is cursor hit-testing and the heading scrub offset (`CustomCursor`).
- **src/navigation.js** is the menu with its scroll lock, the menu indicator shape and the code-point splitter (`Navigation`, plus `ButtonStagger`).
- **src/marquee.js** is the marquee configuration, clones, styles and direction logic (`Marquee`).
- **src/spline-manager.js and src/theme-switcher.js** are theme selection (`Themes`). They share one module because they share the window globals.
- **src/preloader.js** is the preloader scroll lock (`Preloader`).

Two shared modules describe the JavaScript and DOM behaviour the scripts rely on:

- `JsText`:
  - `parseInt`, with radix 10 and with no radix (where a `0x` prefix means hexadecimal)
  - UTF-16 code units and the code-point iteration of `[...text]`
  - template-literal decimals
  - the truncating `%`
  - the names every object inherits from `Object.prototype`
- `Dom`:
  - attribute maps
  - inline styles, where setting `""` removes a declaration
  - first-match queries

## How it is modelled

**State.** Whatever the source updates in place is a class:
- the `lenis` handle and the hooks' flags (`SmoothScroll.Session`)
- the script cache (`ScriptLoader.ScriptCache`)
- `ImageTrail`, `CustomCursor`, `Navigation` and `NavigationAnchors` (`ImageTrail.Trail`, `CustomCursor.Cursor`, `Navigation.Nav`, `Navigation.MenuShape`)
- each marquee (`Marquee.MarqueeElement`)
- `SplineManager`, `ThemeSwitcher` and the window globals they share (`Themes.SplineManager`, `Themes.ThemeSwitcher`, `Themes.Window`)
- the preloaded document (`Preloader.Document`)

Loops over DOM lists are methods over arrays or sequences.

**Proof pattern.** Each state-changing method is proved equal to a specification function of the old state, for example `State() == Lock(old(State()))`. The source's promises are then proved as lemmas about those functions.

**Inputs.** The browser (time, window width, geometry, the user agent) is passed in as parameters:
- `Date.now()` becomes `now`.
- A distance comparison becomes a boolean `far`.
- Bounding boxes become `Rect` values.
- The user-agent regular expressions become booleans.

## Model

| member | source | states |
|---|---|---|
| JsText.ParseIntDecimal | src/main.js:288 | `parseInt` with radix 10 reads back the decimal text of every integer, whatever non-digit text follows it |
| JsText.ParseIntNegatedDecimal | src/navigation.js:64 | the `top` the lock writes, `-${n}px` for a non-negative `n`, reads as the integer −n |
| JsText.ParseIntAutoRadixHex | src/marquee.js:38 | `parseInt` without a radix reads "0x" or "0X" followed by a hexadecimal run as that run's value, whatever follows the run |
| JsText.ParseIntAutoRadixReadsDecimal | src/marquee.js:38 | `parseInt` without a radix reads back the decimal text of every integer followed by a non-digit; only "0" followed by `x` or `X` is excluded |
| JsText.ParseIntAutoRadixHexPrefixed | src/marquee.js:38 | behind "0x" or "0X", `parseInt` without a radix reads hexadecimal, and NaN when no hexadecimal digit follows |
| JsText.ParseIntAutoRadixNegated | src/marquee.js:38 | a leading minus sign negates what `parseInt` without a radix reads after it, the hexadecimal form included |
| JsText.ParseIntAutoRadixDecimal | src/marquee.js:38 | without the hexadecimal prefix after the sign, `parseInt` without a radix agrees with `parseInt(s, 10)` |
| JsText.ParseIntAutoRadixBarePrefix | src/marquee.js:38 | a hexadecimal prefix with no hexadecimal digit after it is NaN |
| JsText.ParseIntLeadingZero | src/main.js:288 | `parseInt` of "0" followed by a non-digit ("0.5") is 0 |
| JsText.NatDecimalValue | src/navigation.js:64 | the digits `${n}` writes for a non-negative integer have the value n |
| JsText.CodePoints | src/navigation.js:162 | `[...text]` yields at most as many pieces as code units, each one or two units long |
| JsText.JsRem | src/cursor-trail.js:105 | JavaScript `%` with a positive divisor: the result differs from the dividend by a multiple of n and has its sign; on non-negative dividends it is Euclidean `%`, on negative ones it lies in (-n, 0] and is zero exactly when n divides |
| JsText.ConcatCodePoints | src/navigation.js:162 | joining the pieces `[...text]` iterates over gives the text back |
| JsText.CodePointsCount | src/navigation.js:162 | code points and code units are equally many exactly when no surrogate pair occurs |
| Dom.SetStyle | src/navigation.js:71-77 | assigning `""` removes the inline declaration, any other value sets it, no other property changes |
| Dom.FirstContainer | src/main.js:476 | the first element that is a Barba container, with none before it, or none at all |
| Dom.FirstIndexOf | src/preloader.js:42 | the first position holding the id, with none before it; none exactly when the id is absent |
| SmoothScroll.Init | src/main.js:33-66 | an instance is created, running with `lenis`/`lenis-smooth` added, only when the library is loaded and none exists; otherwise nothing changes |
| SmoothScroll.Pause | src/main.js:69-75 | no-op without an instance; otherwise the instance stays, stopped, with listener and ticker kept, `lenis-stopped` added and `lenis-smooth` removed |
| SmoothScroll.Resume | src/main.js:78-84 | no-op without an instance; otherwise running, `lenis-stopped` removed and `lenis-smooth` added |
| SmoothScroll.Destroy | src/main.js:87-106 | back to no instance, listener and ticker, with the three engine classes removed |
| SmoothScroll.BeforeLeave | src/main.js:427-432 | the `beforeLeave` hook keeps the handle consistent |
| SmoothScroll.EnsureRunning | src/main.js:538-544 | resume or create keeps the handle consistent |
| SmoothScroll.BeforeEnter | src/main.js:434-456 | the `beforeEnter` hook keeps the handle consistent |
| SmoothScroll.BeforeLeavePausesOnlyGridToCms | src/main.js:427-432 | a running instance is stopped by leaving exactly on a grid-page to cms-page transition, and every other transition leaves the handle unchanged |
| SmoothScroll.BeforeEnterOutcome | src/main.js:434-456 | into a grid page an instance runs whenever one existed or the library is loaded; into a cms page any instance is stopped; an instance exists afterwards iff one did or one was created |
| SmoothScroll.InitOnce | src/main.js:34 | a second `initLenis` after a successful one changes nothing |
| SmoothScroll.DestroyFinal | src/main.js:87-106 | destroy is idempotent, and pause or resume after it do nothing |
| SmoothScroll.PauseResume | src/main.js:69-84 | pause then resume restores a running handle exactly |
| SmoothScroll.Session.constructor | src/main.js:472 | the page starts with no instance and `wasOnCmsPage` false |
| SmoothScroll.Session.InitLenis | src/main.js:33-66 | the module state after `initLenis` is `Init` of the old one |
| SmoothScroll.Session.PauseLenis | src/main.js:69-75 | the module state after `pauseLenis` is `Pause` of the old one |
| SmoothScroll.Session.ResumeLenis | src/main.js:78-84 | the module state after `resumeLenis` is `Resume` of the old one |
| SmoothScroll.Session.DestroyLenis | src/main.js:87-106 | the module state after `destroyLenis` is `Destroy` of the old one |
| SmoothScroll.Session.OnBeforeLeave | src/main.js:427-432 | the hook's effect is `BeforeLeave` |
| SmoothScroll.Session.OnBeforeEnter | src/main.js:434-456 | the hook's effect is `BeforeEnter`, and a cms page is scrolled to the top |
| SmoothScroll.Session.UpdatePageState | src/main.js:474-482 | `wasOnCmsPage` is exactly "the first Barba container has namespace cms-page" |
| SmoothScroll.Session.OnPopState | src/main.js:485-491 | a back/forward navigation reloads exactly when `wasOnCmsPage` |
| SmoothScroll.Session.GridAfterEnter | src/main.js:538-553 | the grid view's `afterEnter` resumes or creates the instance and updates the page flag |
| SmoothScroll.Session.CmsAfterEnter | src/main.js:557-573 | the cms view's `afterEnter` leaves scrolling halted and updates the page flag |
| SmoothScroll.Session.OnBeforeUnload | src/main.js:625-629 | unloading leaves no instance |
| SmoothScroll.GridToCmsNavigation | src/main.js:427-491 | leave, enter and after-enter from grid to cms leave scrolling stopped, the page at the top, and a later back navigation reloading |
| PageRules.PreventIff | src/main.js:496-509 | `prevent` is true iff there is an element and its nearest Barba container is a cms page |
| PageRules.PreventNearestWins | src/main.js:501 | an outer cms container does not count once a nearer non-cms one exists |
| PageRules.IsElementVisible | src/main.js:277-295 | visible iff present, not display none, not visibility hidden, `parseInt(opacity)` not 0, and not both sides 0 |
| PageRules.FractionalOpacityHides | src/main.js:288 | any opacity written "0.x" counts as hidden |
| PageRules.OneZeroSideIsVisible | src/main.js:291 | an element that passes the display, visibility and opacity tests is visible iff its width and height are not both 0, so one zero side alone does not hide it |
| PageRules.LayoutVariant | src/main.js:221-237 | the first visible layout of the three, or the first when none is |
| PageRules.ScrollifySections | src/main.js:240-241 | nothing when the chosen variant has no sections, else its `.s<k>` selector |
| PageRules.ActiveElement | src/main.js:136-163 | the first item whose name equals the cms page's non-empty item name; none when the page, its name or a match is missing |
| PageRules.AddClassAt | src/main.js:156 | only the target element gains the class |
| PageRules.MakeItemActive | src/main.js:136-163 | the document after the loop marks exactly `ActiveElement` |
| PageRules.AfterClasses | src/main.js:458-469 | every element loses exactly `active-flip-item`; the next container also loses `fixed`; no other class of any element is removed |
| PageRules.AfterIdempotent | src/main.js:458-469 | a second `after` hook changes nothing |
| PageRules.AfterHook | src/main.js:458-469 | the hook's loop leaves the document `AfterClasses` |
| PageRules.TransitionEnter | src/main.js:516-521 | the enter step marks the active item and fixes the next container |
| PageRules.EnterThenAfter | src/main.js:516-521 | enter followed by `after` leaves no marker and no `fixed` on the next container, and keeps every other class |
| ButtonStagger.UnitSpans | src/main.js:324-336 | one span per UTF-16 unit, span j delayed 0.05 + j·0.01, `white-space: pre` exactly on a space |
| ButtonStagger.CodePointSpans | src/navigation.js:162-172 | one span per code point, span i delayed 1 + i·0.01, `white-space: pre` exactly on a space |
| ButtonStagger.UnitSpansText | src/main.js:324-336 | the span texts concatenate back to the button text |
| ButtonStagger.CodePointSpansText | src/navigation.js:162-172 | the span texts concatenate back to the button text |
| ButtonStagger.StaggerOnce | src/main.js:310-344 | a marked button is untouched; any other is split into unit spans and marked "true", keeping its text |
| ButtonStagger.StaggerOnceIdempotent | src/main.js:314-316 | staggering twice equals staggering once |
| ButtonStagger.SplitByCodePoint | src/navigation.js:158-173 | the content becomes the code-point spans of the text: text kept, marker untouched, at most one span per unit |
| ButtonStagger.SplitByCodePointStable | src/navigation.js:158-173 | re-splitting re-creates the same spans |
| ButtonStagger.NavigationThenMain | src/main.js:314-343 | the unmarked button the navigation splitter left is split by main.js exactly as the original |
| ButtonStagger.SplittersAgreeOnCount | src/navigation.js:162 | both splitters make equally many spans iff the text has no surrogate pair |
| ButtonStagger.BuildUnitSpans | src/main.js:324-336 | the span loop builds exactly `UnitSpans` of the text |
| ButtonStagger.BuildCodePointSpans | src/navigation.js:162-172 | the span loop builds exactly `CodePointSpans` of the text |
| ButtonStagger.ProcessButtonChunk | src/main.js:307-344 | buttons in [start, end) are staggered, others untouched, end = min(start + size, length) |
| ButtonStagger.InitButtonCharacterStagger | src/main.js:298-360 | across all chunks of 5 every button is staggered once |
| ButtonStagger.SplitButtonsByCodePoint | src/navigation.js:155-174 | every button is split by code point |
| ScriptLoader.Prop | src/main.js:378 | a missing property reads `undefined` |
| ScriptLoader.Split | src/main.js:372 | `split('.')` gives at least one part and no part contains a dot |
| ScriptLoader.JoinSplit | src/main.js:372 | joining the split path with dots gives the path back |
| ScriptLoader.SplitJoin | src/main.js:372 | splitting the dot-join of dot-free parts gives the parts back |
| ScriptLoader.ResolveAppend | src/main.js:377-383 | walking a + b is walking a, then b from where a ended |
| ScriptLoader.FoundIffEverySegmentDefined | src/main.js:377-388 | the lookup succeeds iff every segment is defined |
| ScriptLoader.LookupGlobal | src/main.js:377-383 | the loop's outcome is `Resolve` of the path |
| ScriptLoader.Ensure | src/main.js:364-424 | a cached name returns its promise and changes nothing; an inherited member name returns that member; a new name gets a new promise that is fulfilled with the global when the walk finds it, rejected with a TypeError when the walk throws, and pending with exactly one script appended when a segment is missing; existing entries are kept |
| ScriptLoader.Settle | src/main.js:386-416 | only a pending promise settles; all others are unchanged |
| ScriptLoader.OnLoad | src/main.js:397-414 | only the script's own promise can change: if pending, it is fulfilled with the global a fresh walk finds, rejected with "loaded but global object not found" when a segment is missing, and left untouched when the walk throws; entries and scripts are kept |
| ScriptLoader.OnError | src/main.js:415-417 | only the script's own promise can change, and a pending one is rejected with "Failed to load <name>" |
| ScriptLoader.SecondRequestReusesPromise | src/main.js:366-368 | a second request for a name returns the first request's promise and changes nothing |
| ScriptLoader.ScriptAppendedOnlyWhenMissing | src/main.js:385-418 | a script is appended exactly for a new name whose global is missing |
| ScriptLoader.RejectedLoadIsNotRetried | src/main.js:415-422 | after a failed load the cache still returns the rejected promise, with no new script |
| ScriptLoader.SettledStaysSettled | src/main.js:397-417 | load and error events never change a settled promise |
| ScriptLoader.ScriptCache.constructor | src/main.js:363 | the cache starts empty |
| ScriptLoader.ScriptCache.EnsureLibraryLoaded | src/main.js:364-424 | the new cache and returned value are `Ensure` of the old cache |
| ScriptLoader.ScriptCache.OnScriptLoad | src/main.js:397-414 | the new cache is `OnLoad` of the old |
| ScriptLoader.ScriptCache.OnScriptError | src/main.js:415-417 | the new cache is `OnError` of the old |
| ImageTrail.Default | src/cursor-trail.js:5-8 | `x ?? d` replaces only a missing value |
| ImageTrail.OptionsFrom | src/cursor-trail.js:4-9 | each option is the setting or its default 992/12/300/4 |
| ImageTrail.ZeroSettingsAreKept | src/cursor-trail.js:4-9 | zeros are kept; missing settings give 992/12/300/4 |
| ImageTrail.LeadSlot | src/cursor-trail.js:104 | a lead exists iff there are images, and is one of them |
| ImageTrail.TailSlotAsWritten | src/cursor-trail.js:105 | the tail as written agrees with the corrected tail once `globalIndex >= trailLength` |
| ImageTrail.TailSlot | src/cursor-trail.js:105 | a tail exists iff there are images and `globalIndex >= trailLength` |
| ImageTrail.TailIsEarlierLead | src/cursor-trail.js:104-105 | the tail is the lead of `trailLength` advances earlier |
| ImageTrail.TailAsWrittenEarly | src/cursor-trail.js:105 | early on, the written tail is image 0 iff the image count divides the distance still to go, else undefined |
| ImageTrail.FirstMoveFadesItsOwnLead | src/cursor-trail.js:104-108 | with 4 images and trail length 4, the first advance of the handler as written fades the image it activates; the intended handler fades nothing |
| ImageTrail.Start | src/cursor-trail.js:123-129 | active afterwards; a no-op when already active; otherwise listener and interval set |
| ImageTrail.Stop | src/cursor-trail.js:131-141 | inactive afterwards; a no-op when inactive; otherwise listener and interval cleared, timestamps emptied, every image faded |
| ImageTrail.StartIdempotent | src/cursor-trail.js:124 | start twice equals start once |
| ImageTrail.StopIdempotent | src/cursor-trail.js:132 | stop twice equals stop once |
| ImageTrail.StartStopConsistent | src/cursor-trail.js:123-141 | both keep listeners in step with the flag and timestamps only on an active trail |
| ImageTrail.ResizeFollowsWidth | src/cursor-trail.js:155-161 | after a resize the trail runs iff the width is at least `minWidth`; a resize agreeing with the flag changes nothing |
| ImageTrail.Activate | src/cursor-trail.js:48-74 | an undefined image changes nothing; otherwise it is stamped with the time, given the index as z-index, and `last` moves |
| ImageTrail.MoveAdvances | src/cursor-trail.js:76-111 | the handler as written: inactive or short moves change nothing; otherwise the index grows by one, the lead is stamped and on top, and only the image the written tail index reads fades |
| ImageTrail.MoveIntendedFadesEarlierLead | src/cursor-trail.js:104-109 | the intended handler fades nothing during the first `trailLength` advances, then exactly the lead of `trailLength` advances earlier, and otherwise acts as written |
| ImageTrail.MoveAgreesAfterWarmup | src/cursor-trail.js:105 | once `globalIndex >= trailLength` the written and the intended handler give the same state |
| ImageTrail.FreshPartition | src/cursor-trail.js:113-121 | cleanup splits the map into kept (age ≤ stopDuration) and expired, disjoint and covering; a second cleanup removes nothing |
| ImageTrail.ExpireEntries | src/cursor-trail.js:76-120 | the loop keeps exactly `Fresh` and fades exactly the expired images |
| ImageTrail.Trail.constructor | src/cursor-trail.js:2-28 | state, the ScrollTrigger and the resize listener exist iff there is a wrapper and the width reaches `minWidth` |
| ImageTrail.Trail.StartTrail | src/cursor-trail.js:123-129 | state after is `Start` |
| ImageTrail.Trail.StopTrail | src/cursor-trail.js:131-141 | state after is `Stop` |
| ImageTrail.Trail.HandleResize | src/cursor-trail.js:155-161 | state after is `Resize` |
| ImageTrail.Trail.ActivateImage | src/cursor-trail.js:48-74 | state after is `Activate` |
| ImageTrail.Trail.HandleOnMove | src/cursor-trail.js:90-111 | state after is `Move`, the handler as written |
| ImageTrail.Trail.CleanupTrailImages | src/cursor-trail.js:113-121 | timestamps become `Fresh`; the new fades are exactly the expired images |
| ImageTrail.Trail.Destroy | src/cursor-trail.js:167-170 | throws iff the trail is inert; otherwise stops it and removes the resize listener, while the ScrollTrigger stays |
| ImageTrail.DestroyedTrailRestarts | src/cursor-trail.js:148-149 | after `destroy()`, the ScrollTrigger's `onEnterBack` runs the trail again without a resize listener |
| CustomCursor.CornersAreInside | src/animations.js:69-71 | all four corners of a box count as inside |
| CustomCursor.FirstHit | src/animations.js:51-58 | the first box containing the point, or none when none does |
| CustomCursor.IntersectOutcome | src/animations.js:48-97 | over a section iff some section and no hide zone contains the point; current section is the first hit or unchanged; opacity 1 iff over; the label changes only to that section's text |
| CustomCursor.HideZonesOnlyMaskSections | src/animations.js:61-63 | with no section under the point, hide zones make no difference |
| CustomCursor.EarlierSectionWins | src/animations.js:51-58 | of two overlapping sections the earlier one becomes current |
| CustomCursor.Cursor.constructor | src/animations.js:6-11 | listeners exist iff `.custom-cursor` exists |
| CustomCursor.Cursor.CheckIntersection | src/animations.js:48-67 | state after and the thrown flag are `Intersect` of the old state |
| CustomCursor.Cursor.CheckHideElements | src/animations.js:73-81 | the flag stays on iff no hide zone contains the point |
| CustomCursor.Cursor.UpdateCursorText | src/animations.js:90-97 | the label is copied only when over a section that has custom text |
| CustomCursor.ScrubOffset | src/animations.js:138-152 | no timeline for 0 headings, else yPercent −100·(n−1) |
| CustomCursor.InitTextScrubbing | src/animations.js:136-154 | one timeline per wrap with headings, in order, with its offset |
| Navigation.Lock | src/navigation.js:57-68 | the lock leaves `data-nav`, saved and current offsets, `window.lenis` and pending lock alone |
| Navigation.Unlock | src/navigation.js:70-83 | the unlock leaves `data-nav`, saved offset, nav style and pending lock alone |
| Navigation.ToggleFlips | src/navigation.js:23-28 | `open` closes and anything else opens; the click re-reads `data-nav`; opening saves `scrollY`; closing sets pointer-events none |
| Navigation.LockPinsBody | src/navigation.js:57-68 | the body is fixed at top `-${scrollPosition}px`, which `parseInt` reads back as −scrollPosition |
| Navigation.TopValueReadsBack | src/navigation.js:64 | `parseInt` of `-${n}px` is −n |
| Navigation.LockThenUnlock | src/navigation.js:57-83 | unlock after lock scrolls back to the saved offset and leaves none of the lock's properties, keeping every other one |
| Navigation.LenisBodyWriteIsRedundant | src/navigation.js:67 | the extra overflow write on `html.lenis, .lenis body` changes nothing |
| Navigation.OpenCloseRestoresScroll | src/navigation.js:31-83 | open, timeline end, close restores the scroll offset and leaves no lock property |
| Navigation.CloseCancelsPendingLock | src/navigation.js:37-51 | closing before the open timeline finishes cancels its lock |
| Navigation.Nav.constructor | src/navigation.js:6-20 | inert without `.nav`; `state` copies `data-nav` |
| Navigation.Nav.OnToggleClick | src/navigation.js:24-27 | state after is `Toggle` |
| Navigation.Nav.OpenNav | src/navigation.js:31-43 | state after is `Open` |
| Navigation.Nav.OnOpenTimelineEnd | src/navigation.js:42 | state after is `OpenTimelineEnd` |
| Navigation.Nav.CloseNav | src/navigation.js:45-55 | state after is `Close` |
| Navigation.Nav.LockScroll | src/navigation.js:57-68 | state after is `Lock` |
| Navigation.Nav.UnlockScroll | src/navigation.js:70-83 | state after is `Unlock` |
| Navigation.Nav.SetLenisBodyStyle | src/navigation.js:67 | state after is `SetLenisBodyOverflow`: only the root's overflow changes, and only when the root has `lenis`, the one element `html.lenis, .lenis body` can select |
| Navigation.MenuShape.constructor | src/navigation.js:88-135 | inert without `.menu_shape`; otherwise it observes, and sets transitions `all 500ms` on the shape and `width 250ms` on its background |
| Navigation.MenuShape.SnapToCurrent | src/navigation.js:110-118 | the shape is visible and moved iff a current link exists; link backgrounds hidden |
| Navigation.MenuShape.MoveShape | src/navigation.js:120-130 | left = link offset − menu offset, width = link inner width |
| Marquee.SpeedMultiplier | src/marquee.js:45-49 | 0.25 below 479, 0.5 below 991, 1 otherwise |
| Marquee.SpeedMultiplierMonotone | src/marquee.js:45-49 | a wider window never gets a smaller multiplier, and none exceeds 1 |
| Marquee.DirectionAttr | src/marquee.js:37 | 1 iff the attribute is `right`, else −1 |
| Marquee.DuplicateAmount | src/marquee.js:38 | a missing or empty attribute gives 0 |
| Marquee.DuplicateAmountReadsDecimal | src/marquee.js:38 | a decimal attribute, with any non-digit text after it, gives its integer; the one exception is "0" followed by `x` or `X` |
| Marquee.DuplicateAmountReadsHex | src/marquee.js:38 | `parseInt` has no radix here, so "0x" or "0X" and a hexadecimal run give the run's value, and that many clones ("0x3" gives 3) |
| Marquee.CloneCount | src/marquee.js:57 | clones are made only for a positive amount, as many as the amount |
| Marquee.ConfigOf | src/marquee.js:25-43 | the configuration fields come from the attributes and the width tier |
| Marquee.InitialXPercent | src/marquee.js:78-80 | items start at 100 when moving right, −100 otherwise |
| Marquee.ScrollRange | src/marquee.js:107-108 | start is the speed for direction −1, else its negation; end is minus start |
| Marquee.ParallaxMovesWithItems | src/marquee.js:96-121 | the parallax runs from −direction·speed to direction·speed; with the time scale the direction trigger sets for the same scroll, the scrubbed parallax always moves the same way as the items, whose tween (lines 70-75) runs `xPercent` toward −100 |
| Marquee.ScrollUpdateOutcome | src/marquee.js:96-102 | scrolling down plays against the direction with status `normal`; scrolling up plays along with `inverted` |
| Marquee.MarqueeElement.constructor | src/marquee.js:14-15 | a marquee starts untouched |
| Marquee.MarqueeElement.Setup | src/marquee.js:13-23 | no field changes without content or scroll target; otherwise styles, clones, initial position, time scale, status `normal` and parallax range, as `SetUpAt` collects them |
| Marquee.MarqueeElement.DuplicateContent | src/marquee.js:56-64 | exactly `CloneCount` clones are appended |
| Marquee.MarqueeElement.OnScrollUpdate | src/marquee.js:96-102 | time scale and status are `ScrollUpdate` of the direction |
| Marquee.InitMarquees | src/marquee.js:2-11 | every complete marquee ends exactly as `setupMarquee` leaves it (`SetUpAt`: styles, clones, position, time scale, status and range); every other marquee keeps all its fields |
| Themes.ThemeLookup | src/spline-manager.js:32-68 | `light` and `dark` give their palettes, `current` gives the current name |
| Themes.AcceptedAsWrittenIff | src/spline-manager.js:100 | the written guard passes exactly palette names, `current` and inherited member names |
| Themes.Variables | src/spline-manager.js:118-128 | the nine fixed property names in order; a non-palette value gives "undefined" for each |
| Themes.SetAllEffect | src/spline-manager.js:130-132 | distinct `setProperty` calls each leave their value and touch nothing else |
| Themes.NineVariablesSet | src/spline-manager.js:117-133 | exactly the nine properties are set, to the matching values; the rest of the root style stays |
| Themes.ApplyToScenes | src/spline-manager.js:108-112 | the scene list keeps its length |
| Themes.ApplyToScenesOnlyLoaded | src/spline-manager.js:108-112 | only scenes with an app receive the theme |
| Themes.SwitchAsWritten | src/spline-manager.js:99-115 | a rejected name changes nothing; an accepted one becomes current |
| Themes.Switch | src/spline-manager.js:99-115 | corrected guard: only `light`/`dark` switch; anything else changes nothing |
| Themes.SwitchAgreesOnPalettes | src/spline-manager.js:99-115 | both guards agree on palette names |
| Themes.SwitchSetsPalette | src/spline-manager.js:105-114 | switching to a palette gives the page that palette's colours |
| Themes.ApplyVariablesIdempotent | src/spline-manager.js:117-133 | updating the variables twice with the same value equals once |
| Themes.SwitchTwiceKeepsStyle | src/spline-manager.js:99-115 | switching to the same theme again changes no variable |
| Themes.CurrentNameBlanksVariables | src/spline-manager.js:67 | as written, `switchTheme('current')` passes the guard and writes "undefined" into all nine variables |
| Themes.DesiredRatio | src/spline-manager.js:74-90 | the ratio lies in [0.85, 1.2] |
| Themes.SafariTakesPrecedence | src/spline-manager.js:82-84 | on Safari the ratio depends only on mobile/iOS: 1.2 for those, 0.85 for every desktop |
| Themes.RatioOutsideSafari | src/spline-manager.js:86-89 | mobile gives 1 when short of memory or cores or on iOS, else 1.2; desktop gives 0.9 when short, and 1.15 exactly when not short |
| Themes.ManagerCalledFirst | src/theme-switcher.js:37-43 | the wrapped function calls the manager exactly once, first, then each wrapper's button update |
| Themes.Extend | src/theme-switcher.js:31-45 | a global function is wrapped around the previous one; without one nothing is wrapped |
| Themes.ButtonSelection | src/theme-switcher.js:18-29 | never both selected; light iff `light`, dark iff `dark` |
| Themes.Window.constructor | src/spline-manager.js:21 | no runtime promise, manager or global function at first |
| Themes.SplineManager.constructor | src/spline-manager.js:3-29 | current is `dark`, no scenes, runtime import started only when no promise existed, global function published |
| Themes.SplineManager.SwitchThemeAsWritten | src/spline-manager.js:99-115 | state after is `SwitchAsWritten` |
| Themes.SplineManager.SwitchTheme | src/spline-manager.js:99-115 | the corrected switch of the Findings row: state after is `Switch`, and it reports whether the name was accepted |
| Themes.SplineManager.ApplyThemeToScenes | src/spline-manager.js:108-112 | scenes after are `ApplyToScenes` |
| Themes.SplineManager.UpdateWebflowVariables | src/spline-manager.js:117-133 | root style after is `ApplyVariables` |
| Themes.SplineManager.CreateScene | src/spline-manager.js:135-139 | the new scene is appended and returned |
| Themes.TwoManagers | src/spline-manager.js:20-29 | a second manager starts no second runtime import |
| Themes.ThemeSwitcher.constructor | src/theme-switcher.js:2-16 | inert when either button is missing; otherwise wraps an existing global, listens, and marks the current theme's button |
| Themes.ThemeSwitcher.UpdateButtonStyles | src/theme-switcher.js:18-29 | selection after is `ButtonSelection` |
| Themes.ThemeSwitcher.CallGlobal | src/theme-switcher.js:37-43 | the manager switches as written (`SwitchAsWritten`), then the buttons follow the name |
| Themes.ThemeSwitcher.SwitchTheme | src/theme-switcher.js:66-70 | delegates only when the global exists, and the manager then switches as written (`SwitchAsWritten`); without the global neither the buttons nor the manager change; the buttons follow only through the wrapper |
| Themes.LightClick | src/theme-switcher.js:49-51 | a light-button click makes `light` current, selects only the light button and applies the light palette |
| Preloader.RemoveFirst | src/preloader.js:42-45 | without a tag the head is unchanged; otherwise the first tag, and only it, is removed and the order of the rest is kept |
| Preloader.LockEffect | src/preloader.js:2-16 | root/body overflow hidden, body pointer-events none; the class and one tag are added iff the root has a Lenis class |
| Preloader.UnlockEffect | src/preloader.js:35-46 | the three properties and the class are cleared; one tag is removed if any; other head elements stay |
| Preloader.LockThenUnlock | src/preloader.js:2-46 | lock then unlock leaves neither class nor tag and restores the root classes |
| Preloader.UnlockIdempotentIff | src/preloader.js:35-46 | a second unlock changes nothing iff at most one tag was present |
| Preloader.DoubleLockLeavesOneTag | src/preloader.js:48-51 | two locks on a Lenis page leave two tags, and one unlock leaves one |
| Preloader.Document.constructor | src/preloader.js:2 | the document starts in the given state |
| Preloader.Document.InitPreloaderLock | src/preloader.js:2-16 | state after is `Lock` |
| Preloader.Document.AddScrollLockStyles | src/preloader.js:19-32 | one lock tag is appended to the head |
| Preloader.Document.RemovePreloaderLock | src/preloader.js:35-46 | state after is `Unlock` |
| Preloader.PreloaderLifecycle | src/preloader.js:48-51 | module-load lock, main-script lock and one unlock leave one tag behind |

## Left out

- src/preloader-animation.js is not part of this model: it is a timeline of fixed tweens and Rive callbacks whose only state effect is calling `removePreloaderLock`.
- Tweens, easing and durations (gsap, ScrollTrigger, Flip) are not modelled. A tween is reduced to the value it sets, such as the marquee time scale, the cursor opacity and the scrub offset.
- `flip()` beyond its guards is not modelled, and neither is `resetWebflow` (DOMParser, Webflow re-initialisation). `bottomFlexAnimated` and `animateBottomFlex` (src/main.js:631-701) are not modelled either.
- Timers and frames are not modelled: `debounce`, `setTimeout`, `setInterval`, `requestAnimationFrame` and the cursor's scroll fade. The chunked stagger is modelled by its end state, not by how its frames interleave.
- The DOMContentLoaded handler (src/main.js:579-622) only dispatches to the modelled operations, and its wiring order is not modelled.
- Event registration is not modelled: `MutationObserver`, the `resize` and `pageshow` listeners, and listener bookkeeping beyond a flag.
- Script and `import()` loading is network I/O. Only the cache and promise bookkeeping are kept; the fetch itself is the load/error event.
- The user-agent regular expressions are not modelled. They are boolean inputs to `Themes.DesiredRatio`.
- The `devicePixelRatio` override is not modelled. Because the property is defined as non-configurable, a second `SplineManager` would throw there.
- `SplineScene` is elided in the source. `applyTheme` is recorded as the list of themes applied to a scene.
- Floating point is not modelled:
  - The trail's distance test (`Math.hypot`) is the boolean `far`.
  - The marquee's `marqueeSpeed` product and duration are not modelled.
  - Transition delays and marquee styles are `real`. The number-to-string formatting of `${…}s` and `${…}%` is not modelled.
- GSAP's playback of the main tween is reduced to the sign of the change in the items' `xPercent` (`Marquee.ItemsDrift`). The wrap-around of `repeat: -1` and the `totalProgress(0.5)` start are not modelled.
- Marquee.DuplicateAmount: the `parseInt` of a non-numeric attribute is NaN (`None`), which then appends nothing, as `NaN > 0` is false.
- Marquee.MarqueeElement.Setup: an inline style written as "NaN%" is recorded as the NaN value. The browser's rejection of that invalid CSS value is not modelled.
- ImageTrail.ExpireEntries: the order of the fade-outs (the map's insertion order) is not modelled. The method states only which images fade.
- The z-index and position styles of trail images are reduced to `zIndex` and `last`. `getBoundingClientRect` arithmetic is not modelled.
- Navigation.Nav.OpenNav: `window.lenis.stop()`/`start()` are modelled as a flag. `window.lenis` is never assigned by src/main.js, which keeps the instance in a module-level `let`, so on these pages the flag stays undefined.
- Scroll offsets are integers. A fractional `scrollY` would print with a decimal point inside `top`.
- A rejected script load stays cached and is never retried. This follows the code, src/main.js:421-423, rather than any promise to retry a failed load.
- ImageTrail.Trail.HandleOnMove follows the handler as written (`Move`), including the early `-0` tail. The corrected handler is `MoveIntended`, and `MoveAgreesAfterWarmup` shows that the two differ only during the first `trailLength` advances; see Findings.
- Navigation.MenuShape.constructor stops before `init`'s first `snapToCurrent`, which a caller runs next as `SnapToCurrent`. A throw there (no `.menu`) would also abort `initNavigation` and skip the `resize` and `pageshow` listeners; that abort is not modelled.
- Themes.SplineManager.SwitchTheme: this is the corrected switch, which accepts only `light` and `dark`, and nothing on the page calls it. `window.switchSplineTheme`, and with it `ThemeSwitcher.CallGlobal` and `ThemeSwitcher.SwitchTheme`, runs the written guard through `SplineManager.SwitchThemeAsWritten`; see Findings.

## Findings

| source | as written | input that shows it | evidently intended | confidence | as-written member | corrected member |
|---|---|---|---|---|---|---|
| src/cursor-trail.js:105 | `trailImages[(globalIndex - trailLength) % length]`: JavaScript's `%` gives `-0` when the negative difference is a multiple of the length, and `arr[-0]` reads element 0 | `trailLength` 4, four trail images, first advance (`globalIndex` 0): the lead is image 0, and the same image 0 is faded out as the tail | no tail during the first `trailLength` advances | not executed | ImageTrail.FirstMoveFadesItsOwnLead | ImageTrail.MoveIntendedFadesEarlierLead |
| src/spline-manager.js:100 | the guard `!window.splineThemes[themeName]` lets through the key `current` and inherited names such as `toString` | `switchSplineTheme('current')`: `current` becomes "current" and all nine colour variables become "undefined" | accept only the palette names `light` and `dark` | not executed | Themes.CurrentNameBlanksVariables | Themes.SwitchSetsPalette |
