# Apartment slider state machine

A Dafny model of the apartment image slider of the `demo10` page
(`js/demo10/index.js`). The page has two near-identical slider classes,
`DesktopApartmentSlider` and `ApartmentSlider` (mobile). They differ only in the
desktop variant's content panels, which follow the current slide. Here both are one
class, `ApartmentSliders.ApartmentSlider`, with a `hasContentPanels` flag.

What is modelled:

- **Slide navigation.** The current index, the `isAnimating` lock, the class list of every
  slide (`active`, `slide-out`, `slide-out-right`, `slide-in`, `slide-in-left` and the
  markup's own classes) and, on desktop, the `active` flag of every content panel.
  `goToSlide`, `performSlideTransition`, `nextSlide` and `prevSlide` are methods. The
  `animationend` listener is the `pending` field plus the `OnAnimationEnd` method, which
  may only be called while a listener is registered.
- **Preloading.** `preloadImages` and `preloadNextImages` return the slide indices whose
  images they start loading. An image finishing loading is the `ImageLoaded(k)` event.
  It adds `k` to `imagesLoaded`, which never shrinks.
- **Auto-play.** The interval handle is an `Option`. The intervals the browser still
  runs for the slider are a set, and fresh handles come from a counter. A timer tick
  is an explicit `AutoPlayTick` call that runs `nextSlide`. Hover calls `stopAutoPlay`
  on enter and `startAutoPlay` on leave, so it is those two methods.
- **Touch swipes.** The closure variables `startX`, `startY`, `endX`, `endY` and
  `isScrolling` of `addTouchSupport` are the fields of `Swipe.SwipeTracker`. Its three
  methods are the three handlers, on integer coordinates. The slider's `TouchEnd` fires
  the command the gesture decides.
- **Breakpoint.** A viewport wider than 768 px selects the desktop slider. The
  `DOMContentLoaded` and `resize` handlers build one, counted per root element.

Every slider method is proved against a function on values (`SlideIndex`,
`SliderSpec`, `AutoPlay`, `Swipe`). The properties are proved about those functions.
The page's breakpoint handlers work on per-root slider counters instead. The main
properties:

- for any HTML, N rounds of "next" bring the index back, and so does "prev" then "next";
- for any HTML, the desktop panel goes dark at once and lights up only at animation end;
- from HTML that marks only slide 0 `active` and has no animation class
  (`InitialSettled`), these also hold:
  - exactly one slide is `active` throughout;
  - a transition's animation classes are gone once it ends;
  - N rounds of "next" restore the whole slider exactly;
  - "prev" then "next" restores the whole slider;
- at most one interval is live;
- the swipe rule fires "next", "prev" or nothing, and resets the gesture only when it was tracked and horizontal.

Behaviour of the code that a reader might not expect, modelled as written:

- `touchend` resets the gesture variables only when its early-return guard passes.
  After a gesture that was never horizontal, the start point stays set until the next
  `touchstart`. It is not reset after every gesture.
- `touchmove` calls `preventDefault()` on each horizontal move only. It does not do so
  for the rest of the gesture. Its `isScrolling` stays set once set.
- On desktop the old content panel is switched off when the transition starts, but the
  new panel is switched on only at animation end. No panel is active in between.
- A touch that starts at x = 0 or y = 0 counts as no touch, because the handlers test
  the coordinates for falsiness.
- The constructor sets `currentSlide` to 0 but never puts `active` on any slide. It relies
  on the HTML for that. If the HTML marks two slides `active`, both keep the class until
  a transition leaves them, and a full lap of "next" does not restore the slider. The
  one-active and whole-state restoration properties are therefore stated for a settled
  slider; the index cycle and the panel rule hold for any HTML.

## Model

| member | source | states |
|---|---|---|
| `SlideIndex.NextIndex` | js/demo10/index.js:294-297 | the next index stays below N and wraps from the last slide to slide 0 |
| `SlideIndex.PrevIndex` | js/demo10/index.js:299-302 | the previous index stays below N and wraps from slide 0 to the last slide |
| `SlideIndex.NextPrevInverse` | js/demo10/index.js:294-302 | previous-of-next and next-of-previous are the identity on indices |
| `SlideIndex.SingleSlideNeighbours` | js/demo10/index.js:294-302 | with one slide both neighbours of slide 0 are slide 0 |
| `SlideIndex.AdvanceWraps` | js/demo10/index.js:294-297 | k steps forward from c reach c + k, less N once past the last slide (first two laps) |
| `SlideIndex.FullLap` | js/demo10/index.js:294-297 | N steps forward return to the starting index |
| `SlideIndex.Unloaded` | js/demo10/index.js:222-240 | the requested indices are exactly the visited ones that have an image and are not yet loaded, and no more requests than visits |
| `SlideIndex.UnloadedCounts` | js/demo10/index.js:222-240 | each visited index that has an image and is not yet loaded is requested exactly as often as it is visited; any other index never |
| `SlideIndex.PreloadRequests` | js/demo10/index.js:218-241 | at most two requests; each is the next or previous index of the target, unloaded and with an image; every such neighbour is requested |
| `SlideIndex.TwoSlidesRequestTwice` | js/demo10/index.js:218-241 | with two slides the one neighbour is both next and previous and is requested twice |
| `SlideIndex.InitialRequests` | js/demo10/index.js:186-203 | start-up requests exactly the slides that have an image |
| `SliderSpec.OutClass` | js/demo10/index.js:257-261 | the exit class is `slide-out` exactly for direction "next"; any other direction gives `slide-out-right` |
| `SliderSpec.InClass` | js/demo10/index.js:270-274 | the entry class is `slide-in` exactly for direction "next"; any other direction gives `slide-in-left` |
| `SliderSpec.Transition` | js/demo10/index.js:243-275 | old slide loses `active` and gets the direction's exit class; new slide gets `active` and the entry class; no other slide changes; the old panel is switched off (desktop); the listener records both slides |
| `SliderSpec.GoTo` | js/demo10/index.js:205-215 | a call while locked or to the current index changes nothing; otherwise the index becomes the target and the lock is held with its listener; images and panels count unchanged |
| `SliderSpec.AnimationEnd` | js/demo10/index.js:277-289 | removes both exit classes from the old slide and both entry classes from the new one, leaves the index, switches the current panel on (desktop) and releases the lock |
| `SliderSpec.NextSlide` | js/demo10/index.js:294-297 | keeps the slider well-formed (index in range, lock held exactly while a listener is pending) |
| `SliderSpec.PrevSlide` | js/demo10/index.js:299-302 | keeps the slider well-formed (index in range, lock held exactly while a listener is pending) |
| `SliderSpec.Finish` | js/demo10/index.js:277-291 | after the pending animation end, if any, the slider is unlocked and well-formed |
| `SliderSpec.Initial` | js/demo10/index.js:111-137 | the constructed slider is on slide 0, unlocked, with no listener, no loaded image, the markup's classes, and on desktop only panel 0 active (mobile panels untouched) |
| `SliderSpec.Requests` | js/demo10/index.js:205-211 | an ignored goToSlide requests nothing; an accepted one requests at most two images, each a neighbour of the target that has an image and is not loaded, and every such neighbour |
| `SliderSpec.InitialSettled` | js/demo10/index.js:111-128 | markup with `active` on slide 0 only and no animation class gives a settled initial slider (desktop panels as updateContentVisibility leaves them) |
| `SliderSpec.ExactlyOneActive` | js/demo10/index.js:243-292 | idle or mid-transition, the set of `active` slides is exactly the current slide |
| `SliderSpec.GoToStartsTransition` | js/demo10/index.js:243-275 | from a settled slider an accepted goToSlide leaves only the target active, animation classes only on the two slides, and no desktop panel active |
| `SliderSpec.AnimationEndSettles` | js/demo10/index.js:277-289 | the animation end of such a transition leaves no animation class anywhere and only the current slide's panel active |
| `SliderSpec.PhaseKept` | js/demo10/index.js:205-292 | from a settled or mid-transition slider, goToSlide (accepted or ignored) leaves it settled or mid-transition, and a pending animation end leaves it settled |
| `SliderSpec.SettledByCurrent` | js/demo10/index.js:243-292 | two settled sliders with the same markup, images and index are equal |
| `SliderSpec.RoundSettles` | js/demo10/index.js:205-292 | goToSlide followed by its animation end lands on the target, settled, with each slide's markup classes, the images and the mobile panels unchanged |
| `SliderSpec.NextRoundsAdvance` | js/demo10/index.js:294-297 | k rounds of next-then-animation-end move the index k steps forward and keep the slider settled |
| `SliderSpec.NextLapRestores` | js/demo10/index.js:294-297 | N rounds of next-then-animation-end restore a settled slider to exactly its starting state |
| `SliderSpec.PrevNextRestores` | js/demo10/index.js:294-302 | prev-then-end followed by next-then-end restores a settled slider exactly, and so does next-then-end followed by prev-then-end |
| `SliderSpec.RoundIndex` | js/demo10/index.js:205-302 | from an idle slider with any markup, a round of next ends idle on the next index and a round of prev on the previous index |
| `SliderSpec.NextRoundsIndex` | js/demo10/index.js:294-297 | from an idle slider with any markup, k rounds of next move the index k steps forward and end idle |
| `SliderSpec.IndexCycle` | js/demo10/index.js:294-302 | with any markup, N rounds of next return to the starting index, and prev-then-next and next-then-prev do too |
| `SliderSpec.InitialPanelsOk` | js/demo10/index.js:137 | after construction, with any markup, only the current slide's desktop panel is active |
| `SliderSpec.PanelsKept` | js/demo10/index.js:243-289 | goToSlide (accepted or ignored) and the animation end keep the desktop panel rule: only the current panel on while idle, none on mid-transition |
| `SliderSpec.DoubleActiveNotRestored` | js/demo10/index.js:111-137 | the constructor never sets `active` itself: from HTML marking slides 0 and 1 `active`, three rounds of next on three slides leave only slide 0 active, so the slider is not restored |
| `SliderSpec.SingleSlideStays` | js/demo10/index.js:205-206 | with a single slide nextSlide and prevSlide change nothing |
| `AutoPlay.Stop` | js/demo10/index.js:311-316 | clears the stored interval: no handle, no live interval |
| `AutoPlay.Start` | js/demo10/index.js:304-309 | the previous interval is no longer live; exactly one fresh interval is live and stored |
| `AutoPlay.FreshHandle` | js/demo10/index.js:304-309 | the handle the next interval gets is not live, so a restart replaces the stored handle with a new one |
| `AutoPlay.AtMostOneLive` | js/demo10/index.js:304-316 | at most one interval is live |
| `AutoPlay.StopIdempotent` | js/demo10/index.js:311-316 | stopping twice equals stopping once; starting twice leaves one live interval |
| `Swipe.AfterTouchStart` | js/demo10/index.js:325-329 | a touch start records its point, clears `isScrolling`, keeps the end point, and is tracked exactly when neither start coordinate is 0 |
| `Swipe.AfterTouchMove` | js/demo10/index.js:331-344 | a move keeps the start point and never clears `isScrolling` |
| `Swipe.EndCommand` | js/demo10/index.js:346-358 | "next" exactly when tracked, horizontal and startX - endX > 50; "prev" exactly when tracked, horizontal and startX - endX < -50 |
| `Swipe.AfterTouchEnd` | js/demo10/index.js:346-364 | a tracked horizontal gesture is reset to the released state, even when it fires nothing because it stayed within 50 px; any other gesture is left as it is |
| `Swipe.ZeroStartIgnored` | js/demo10/index.js:331-347 | a touch starting on a zero coordinate is not tracked: its moves are ignored, touchend fires nothing and resets nothing |
| `Swipe.MovesOutcome` | js/demo10/index.js:325-344 | after touchstart and a run of moves: a gesture starting on a zero coordinate ignores every move; otherwise it is horizontal exactly when some move was, and ends at the last move |
| `Swipe.SwipeDecides` | js/demo10/index.js:325-365 | a whole gesture fires "next" / "prev" exactly by the threshold on the last move, given a nonzero start and a horizontal move; the variables are reset exactly in that case |
| `Swipe.SwipeExamples` | js/demo10/index.js:346-365 | a 100 px left swipe fires next, a right one prev, a vertical one nothing and keeps its start, a 30 px one nothing but resets |
| `Swipe.SwipeTracker.constructor` | js/demo10/index.js:319-323 | the variables start at 0 and false |
| `Swipe.SwipeTracker.TouchStart` | js/demo10/index.js:325-329 | records the start, clears `isScrolling`, keeps the end point |
| `Swipe.SwipeTracker.TouchMove` | js/demo10/index.js:331-344 | updates the variables as the gesture function does and reports whether default scrolling is suppressed |
| `Swipe.SwipeTracker.TouchEnd` | js/demo10/index.js:346-365 | returns the gesture's command and resets the variables only past the guard |
| `ApartmentSliders.ApartmentSlider.constructor` | js/demo10/index.js:111-169 | a valid slider on slide 0 with the markup's classes, desktop panels showing slide 0, start-up preload requests for exactly the slides with an image, one live auto-play interval, a released gesture |
| `ApartmentSliders.ApartmentSlider.UpdateContentVisibility` | js/demo10/index.js:171-183 | every panel is off except the current slide's |
| `ApartmentSliders.ApartmentSlider.PreloadImages` | js/demo10/index.js:186-203 | requests exactly the slides that have an image |
| `ApartmentSliders.ApartmentSlider.PreloadNextImages` | js/demo10/index.js:218-241 | returns the preload requests of the target's neighbours |
| `ApartmentSliders.ApartmentSlider.PerformSlideTransition` | js/demo10/index.js:243-292 | the slides, panels, index and listener become those of the transition; timers unchanged |
| `ApartmentSliders.ApartmentSlider.GoToSlide` | js/demo10/index.js:205-215 | the new state is goToSlide's; preload requests are made only for an accepted call; timers unchanged |
| `ApartmentSliders.ApartmentSlider.OnAnimationEnd` | js/demo10/index.js:277-289 | the new state is the animation end's; timers unchanged |
| `ApartmentSliders.ApartmentSlider.NextSlide` | js/demo10/index.js:294-297 | goToSlide of the next index in direction "next" |
| `ApartmentSliders.ApartmentSlider.PrevSlide` | js/demo10/index.js:299-302 | goToSlide of the previous index in direction "prev" |
| `ApartmentSliders.ApartmentSlider.ImageLoaded` | js/demo10/index.js:231-233 | `imagesLoaded` gains the loaded slide and nothing else changes |
| `ApartmentSliders.ApartmentSlider.StopAutoPlay` | js/demo10/index.js:311-316 | timers become those of stopAutoPlay; the slides do not change |
| `ApartmentSliders.ApartmentSlider.StartAutoPlay` | js/demo10/index.js:304-309 | timers become those of startAutoPlay; the slides do not change |
| `ApartmentSliders.ApartmentSlider.AutoPlayTick` | js/demo10/index.js:306-308 | a tick of the live interval is nextSlide, with nextSlide's preload requests |
| `ApartmentSliders.ApartmentSlider.TouchEnd` | js/demo10/index.js:346-365 | the gesture ends as the swipe rule says; its command runs nextSlide or prevSlide with that call's preload requests, or nothing with no request |
| `Breakpoints.VariantFor` | js/demo10/index.js:622-629 | a width above 768 px selects the desktop slider, a width of 768 px or less the mobile one |
| `Breakpoints.Page.DomContentLoaded` | js/demo10/index.js:621-629 | builds the desktop slider above 768 px and the mobile one otherwise, when its root exists |
| `Breakpoints.Page.Resize` | js/demo10/index.js:644-659 | builds the variant's slider only when its root has none, so one slider per root stays one |
| `Breakpoints.ResizeAcrossBreakpoint` | js/demo10/index.js:644-659 | loading wide, then narrowing and widening, leaves one desktop and one mobile slider: neither is torn down and none is built twice |

## Left out

- Lenis smooth scrolling, its animation-frame loop and the GSAP/ScrollTrigger sticky timelines (js/demo10/index.js:58-105). They are foreign animation libraries with float-valued scrubbing.
- The Swiper card carousel, its autoplay watchdog and its manual fallback (js/demo10/index.js:674-804). They wrap a library that is not part of this model and are driven by timers.
- The Ctrl+R handlers and the scroll-to-top code (js/demo10/index.js:10-50, 603-619, 809-850). They are browser scroll I/O and timers. `window.preloadImages` is not part of this model.
- Real image loading, `onerror`, console logging, the buttons' `scale(0.9)` feedback and hover styling. These are I/O and cosmetic effects. A load that completes is the `ImageLoaded` event. A failed load is no event.
- Time: milliseconds and `setInterval` scheduling are not modelled. A tick is an explicit call while an interval is live. `AutoPlayDelay` (4000 ms) is only a constant.
- The DOM: elements, selectors and listener registration. Slides are their class sets and panels their `active` flags. A panel exists for slide k exactly when k is below the number of panels.
- An empty slider. With no slides, `(c + 1) % 0` is `NaN` in JavaScript and the first tick throws after taking the lock. The constructor requires at least one slide.
- Out-of-range targets. `goToSlide` does not check its index. All callers pass a neighbour index, so the model requires an index below the slide count.
- The button click handlers are `PrevSlide`/`NextSlide`, and hover is `StopAutoPlay`/`StartAutoPlay`. They have no members of their own.
- Fractional touch coordinates and multi-touch. `clientX`/`clientY` are numbers that may be fractional, but the model uses integers. Only the first touch point is read.
- A lost `animationend`. If the browser never delivers it, the lock stays held forever. The model does the same, since `OnAnimationEnd` is never called then.
- A constructor on a missing root. It builds an object that does nothing, so the class models a root that exists, and `Breakpoints.Page` does not count such objects.
- AdvanceWraps: states the position after k rounds as c + k (less N past the last slide) only within two laps, not as (c + k) mod N for every k; `FullLap` and `NextLapRestores` cover the full cycle.
- NextSlide: the value-level function only promises well-formedness; its meaning is `GoTo` of the next index, which `GoTo`'s contract states.
- PrevSlide: as for NextSlide, with the previous index.
- Finish: only promises an unlocked, well-formed slider; its effect is `AnimationEnd`'s, whose contract states it.
- ResizeAcrossBreakpoint: counts sliders per root only; that the hidden slider's auto-play interval keeps running is not tracked at page level.
