# Landing-page script: carousel, contact form and scroll state in Dafny

This project models the parts of the BeatJerky landing page script (`script.js`) that
hold state or make decisions that can be stated exactly:

- **Carousel** (`carousel.dfy`, module `Carousel`): the page index `currentIndex`, moved
  by the prev/next buttons, by a swipe on the track (more than 50 px) and by the global
  ArrowLeft/ArrowRight keys, bounded by `max(0, itemCount - 3)`; and `updateCarousel`,
  which paints the track offset `-(index * (itemWidth + 8))` and the buttons' disabled
  flags. `CarouselController` is a class whose fields are the script's variables
  (`currentIndex`, `touchStartX`, `touchEndX`) and what it last painted. Each handler is
  a method proved against pure step functions (`NextIndex`, `PrevIndex`, `SwipeIndex`,
  `Apply`, `Paint`). Lemmas over whole input sequences (`Navigate`) are stated about
  those functions. The class invariant says that once painted, the view shows the
  current page. With that invariant, `KeyDown` proves that a key press moves the index
  exactly as a click on the button would. This holds even though `click()` on a disabled
  button dispatches nothing.
- **Email check** (`email.dfy`, module `Email`): `isValidEmail`, the regular expression
  `^[^\s@]+@[^\s@]+\.[^\s@]+$`. `IsValidEmail` scans the string with a seven-state
  automaton. Its contract says it accepts exactly the strings `L + "@" + R` where `L` is
  non-empty, neither part holds whitespace or `@`, and `R` has a `.` with a character on
  each side. A second lemma proves that this is the language of the pattern read
  literally (`MatchesPattern`). `\s` is JavaScript's whitespace class, written out code
  point by code point.
- **Contact form** (`contact_form.dfy`, module `ContactForm`): the submit handler's
  order of checks. A missing field wins, then a malformed address, then success, which
  shows the thank-you notice and resets the form.
- **Scroll pipeline** (`scroll_effects.dfy`, module `ScrollEffects`): the `ticking` flag
  that lets a burst of scroll events request exactly one animation frame, and the frame
  callback. The callback sets the navbar's "scrolled" state exactly when the offset
  exceeds 100, records `lastScroll` and clears `ticking`. The pure `Gate` state carries
  a ghost count of requested callbacks and completed updates. The browser side is
  modelled as events: a scroll, or a frame that runs every requested callback.
- **Mobile menu** (`nav_menu.dfy`, module `NavMenu`): the toggle flips "active" on the
  links container and on the button; a link click clears both.

The first item's rendered width (`offsetWidth`), the touch coordinates, the pressed
key and the scroll offset are parameters of the methods that read them. The elements
the carousel code looks up once (`Page`) and whether a navbar exists are fixed when an
object is built.

## Model

| member | source | states |
|---|---|---|
| `Carousel.MaxIndex` | script.js:181 | the last start index: the window starting there shows the last item, and is full when there are at least three items |
| `Carousel.ItemWidth` | script.js:169 | the item width is never 0: the measured width when there is an item of non-zero width; 300 when there is no item or it measures 0 |
| `Carousel.TranslateX` | script.js:170 | the offset of page `index` is `-(index * (w + 8))`: 0 exactly on the first page, and at least 8 px left per page after it |
| `Carousel.TranslateBounds` | script.js:170 | for indices in range the offset lies in `[-(maxIndex * (w + 8)), 0]`, is 0 only on the first page, and strictly decreases from page to page |
| `Carousel.Paint` | script.js:166-185 | without a track nothing changes; with one the offset stays within the first and last pages; prev disabled iff index is 0, next disabled iff index >= maxIndex; a missing button keeps its flag |
| `Carousel.NextIndex` | script.js:196-204 | next increments by exactly 1 iff index < maxIndex, otherwise leaves it unchanged; it keeps the index in range |
| `Carousel.PrevIndex` | script.js:187-194 | prev decrements by exactly 1 iff index > 0, otherwise leaves it unchanged; it keeps the index in range |
| `Carousel.SwipeIndex` | script.js:260-280 | a travel of at most 50 px either way changes nothing (strict threshold); more than 50 px leftward equals next; more than 50 px rightward equals prev |
| `Carousel.Apply` | script.js:539-545 | every input (click, swipe, key) keeps the index in `[0, maxIndex]` and moves it by at most one |
| `Carousel.NavigateStaysInRange` | script.js:162-204 | any sequence of inputs, from an index in range, ends in `[0, maxIndex]` |
| `Carousel.SmallCarouselStaysPut` | script.js:181 | with three items or fewer, every sequence of inputs from 0 leaves the index at 0 |
| `Carousel.NavigateMovesSlowly` | script.js:187-204 | after n inputs the index is within n of where it started |
| `Carousel.NextClicksReach` | script.js:196-204 | k next clicks from index i reach `min(i + k, maxIndex)`, so every page is reachable and the last one is where it stops |
| `Carousel.CarouselController.constructor` | script.js:162 | script load: index 0, touch coordinates 0, nothing painted, invariant established |
| `Carousel.CarouselController.Render` | script.js:166-185 | the view becomes `Paint` of the current index at the width measured now; the index is unchanged; afterwards the view shows the current page |
| `Carousel.CarouselController.ClickPrev` | script.js:187-194 | index becomes `PrevIndex`; it repaints exactly when the index moved; the invariant is kept |
| `Carousel.CarouselController.ClickNext` | script.js:196-204 | index becomes `NextIndex`; it repaints exactly when the index moved; the invariant is kept |
| `Carousel.CarouselController.TouchStart` | script.js:250-252 | records the touch-start x and changes nothing else |
| `Carousel.CarouselController.HandleSwipe` | script.js:260-280 | index becomes `SwipeIndex` of the recorded start and end; it repaints exactly when the index moved |
| `Carousel.CarouselController.TouchEnd` | script.js:254-257 | records the touch-end x, then the index becomes `SwipeIndex` of start and end |
| `Carousel.CarouselController.KeyDown` | script.js:539-545 | ArrowLeft acts exactly as a prev click and ArrowRight as a next click when the button exists; any other key changes nothing; this holds through the disabled-button check |
| `Email.IsWs` | script.js:315 | JavaScript's `\s` class, written out code point by code point: space, tab, line feed and carriage return are in it, no printable ASCII character is |
| `Email.IsValidEmail` | script.js:314-317 | true iff `s == L + "@" + R` with L non-empty, no whitespace or `@` in L or R, and a `.` in R with a character on each side |
| `Email.ScanCompletes` | script.js:315 | from each automaton state, the scan accepts exactly the remainders that state's part of the pattern needs |
| `Email.PatternIsShape` | script.js:315 | the pattern read literally (three non-empty runs of `[^\s@]` around `@` and `.`) is the same language as the `L@R` form |
| `Email.ValidEmailHasOneAt` | script.js:315 | a valid address has exactly one `@`, not at either end, and no whitespace |
| `Email.AcceptsPlainAddress` | script.js:315 | "a@b.com" passes |
| `Email.RejectsMalformed` | script.js:315 | "not-an-email", "a@b" and "a@b." fail |
| `Email.RejectsBadCharacters` | script.js:315 | an empty local part, whitespace, or a second `@` fails |
| `Email.AcceptsLeadingDotInDomain` | script.js:315 | "a@.b.c" passes and "a@.b" fails: a domain may start with `.` |
| `ContactForm.Filled` | script.js:295 | the truthiness test `!name`: a field counts as filled iff it is present and not the empty string |
| `ContactForm.Validate` | script.js:294-303 | MissingField iff some field is absent or empty; InvalidEmail iff all are filled and the address is not of the `L@R` form; Sent iff all are filled and it is |
| `ContactForm.NoticeFor` | script.js:295-306 | only Sent gets the success style; the three messages are the script's texts |
| `ContactForm.MissingFieldFirst` | script.js:295-298 | an empty or absent name gives MissingField whatever the address |
| `ContactForm.EmptyNameIsMissing` | script.js:295-298 | name "", email "a@b.com", message "hi" gives MissingField |
| `ContactForm.MalformedAddressIsInvalid` | script.js:300-303 | name "A", email "not-an-email", message "hi" gives InvalidEmail |
| `ContactForm.CompleteFormIsSent` | script.js:305-307 | name "A", email "a@b.com", message "hi" gives Sent |
| `ContactForm.Form.Submit` | script.js:285-311 | the outcome is `Validate` of the fields; the notice matches it; a sent form is reset to empty fields, a rejected one keeps its input |
| `ScrollEffects.Schedule` | script.js:88-93 | a scroll requests a frame only when `ticking` is false, then sets it; the gate stays coherent with exactly one callback pending |
| `ScrollEffects.Update` | script.js:68-86 | with a navbar, as written: the navbar is "scrolled" iff the offset is strictly greater than 100; in every case (the navbar-guarded correction when there is none) the offset is recorded, `ticking` is cleared, one callback is consumed and one update completed |
| `ScrollEffects.UpdateAsWritten` | script.js:75-85 | as written: without a navbar the callback is consumed but `ticking` is not cleared and the update does not complete |
| `ScrollEffects.RunCallbacks` | script.js:90 | a frame runs every requested callback (the navbar-guarded `Update`): none remain, and the updates rise by the number that were requested |
| `ScrollEffects.RunStaysCoherent` | script.js:85-93 | along any run of scrolls and frames with the navbar-guarded callback (the script's behaviour whenever a navbar exists), `ticking` is set exactly while one callback is requested |
| `ScrollEffects.BurstRequestsOneFrame` | script.js:88-93 | any number (at least one) of scroll events before a frame request exactly one callback and change nothing else |
| `ScrollEffects.AtMostOneUpdatePerFrame` | script.js:66-93 | over any run of events, completed updates never outnumber frames |
| `ScrollEffects.BurstThenFrame` | script.js:68-93 | a burst of scrolls and then a frame run the update exactly once, leaving `ticking` clear and the navbar state matching the frame's offset |
| `ScrollEffects.RunAppend` | script.js:88-93 | running two event sequences one after the other equals running their concatenation |
| `ScrollEffects.StuckStaysStuck` | script.js:85-93 | a state with `ticking` set and no callback requested never changes again |
| `ScrollEffects.NavbarlessPageFreezesAsWritten` | script.js:75-85 | as written, on a page without a navbar the first frame leaves `ticking` set with nothing requested, and no later event runs an update |
| `ScrollEffects.GuardedUpdateKeepsScheduling` | script.js:85-93 | with the navbar guarded, scroll, frame, scroll completes one update and requests a frame again |
| `ScrollEffects.ScrollPipeline.constructor` | script.js:65-66 | script load: `lastScroll` 0, `ticking` false, nothing requested |
| `ScrollEffects.ScrollPipeline.HandleScroll` | script.js:88-93 | the fields change as `Schedule` says and stay coherent |
| `ScrollEffects.ScrollPipeline.UpdateOnScroll` | script.js:68-86 | the fields change as `Update` says: "scrolled" iff offset > 100 when there is a navbar, `ticking` cleared |
| `NavMenu.Toggle` | script.js:33-38 | both elements flip; the two agree afterwards iff they agreed before |
| `NavMenu.CloseOnLinkClick` | script.js:40-46 | both elements end inactive |
| `NavMenu.ToggleTwiceRestores` | script.js:34-37 | two toggles restore the original state |
| `NavMenu.CloseIsIdempotent` | script.js:42-45 | a second link click changes nothing |
| `NavMenu.ReplayKeepsInStep` | script.js:33-46 | once the links container and the button agree, no sequence of clicks separates them; without link clicks, the links container has flipped iff it was toggled an odd number of times |
| `NavMenu.NavigationMenu.constructor` | script.js:29-30 | the menu starts closed |
| `NavMenu.NavigationMenu.ToggleClicked` | script.js:34-37 | the fields change as `Toggle` says |
| `NavMenu.NavigationMenu.LinkClicked` | script.js:42-45 | the fields change as `CloseOnLinkClick` says |

## Findings

| source | as written | input that shows it | evidently intended | confidence | as-written member | corrected member |
|---|---|---|---|---|---|---|
| script.js:75-85 | `updateOnScroll` uses `navbar.classList` without checking that `.navbar` exists, and `ticking = false` comes after it; the progress bar and parallax steps do guard their elements | a page without a `.navbar` element, scrolled once: the frame callback throws at line 76 (offset above 100) or line 78 (offset of 100 or less), `ticking` stays true, and no later scroll requests a frame | skip the navbar step when there is no navbar, as the other steps do, and always clear `ticking` | medium; not executed | `ScrollEffects.NavbarlessPageFreezesAsWritten` | `ScrollEffects.GuardedUpdateKeepsScheduling` |

The rest of the scroll model follows the corrected behaviour. `Update` updates the navbar state only when a navbar exists and always clears `ticking`. `RunCallbacks`, `Step` and `Run` are built on `Update`, so `RunStaysCoherent`, `BurstRequestsOneFrame`, `AtMostOneUpdatePerFrame`, `RunAppend`, `StuckStaysStuck` and `GuardedUpdateKeepsScheduling` describe the script as written only when `hasNavbar` is true. For `hasNavbar == false` they describe the corrected callback. `BurstThenFrame` fixes `hasNavbar` to true. The class `ScrollEffects.ScrollPipeline` and its `UpdateOnScroll` follow the corrected behaviour too. Only `UpdateAsWritten` and `NavbarlessPageFreezesAsWritten` model the unguarded callback.

## Left out

- Scroll restoration and the `scrollTo` calls on load, unload and DOM ready (script.js:3-26): browser side effects with no state of their own.
- `updateScrollProgress` (script.js:52-62): floating-point division. The script does not guard `scrollableHeight <= 0` and clamps only at 100, so no `[0, 100]` bound is claimed for it.
- `updateParallax` (script.js:366-395): floating-point scale and translate computed from bounding rectangles.
- `smoothScrollTo` and its cubic easing (script.js:96-134): floating-point animation driven by frame timestamps.
- Reveal-on-scroll and lazy image loading (script.js:137-154, 444-461): their one-shot behaviour lives in the browser's `IntersectionObserver`, which is not part of this model.
- `showNotification` (script.js:319-363): timers and DOM insertion and removal. Only the message and style chosen for each submit outcome are modelled (`NoticeFor`).
- Ripple effect and floating orbs (script.js:397-507): random sizes, injected CSS and timers.
- `debounce` and the debounced scroll listener (script.js:509-527): timer-based, and the debounced body is empty.
- Focus outlines, the demo-link notification and the console message (script.js:547-569): cosmetic.
- The carousel's style strings: the opacity values `'0.5'`/`'1'` follow the disabled flags, and the CSS `translateX(...)` text carries the integer offset. The model keeps the flag and the offset.
- Touch coordinates (`screenX`) are modelled as integers; browsers may report fractional values.
- The scroll offset (`window.pageYOffset`) is modelled as an integer; on zoomed or high-DPI displays browsers may report fractional values. The `> 100` test reads the same either way.
- The carousel's touch listeners exist only when the track exists, and a click handler only when its button exists (script.js:187, 196, 249). `Apply` takes this into account. The class methods model the handler bodies, which the page can only call in those cases.
- The markup's initial state is not part of this model: before the first `updateCarousel` the track is taken as untransformed and both buttons as enabled, the navbar as not scrolled, and the menu as closed.
- The mobile menu assumes both the toggle button and the links container exist. Without them the script's handlers throw partway (script.js:35, 44).
- `Form` resets fields to the empty string. The markup's default values are not part of this model.
- JavaScript strings are UTF-16 code units and Dafny strings are Unicode scalar values. An astral character is one `[^\s@]` character here and two in the script. Acceptance is the same either way, but unpaired surrogates cannot be represented.
