/** The apartment slider object: `DesktopApartmentSlider` and `ApartmentSlider` are one
    class here, told apart by `hasContentPanels`. The slides' class lists and the content
    panels' `active` flags are arrays updated in place; every method is proved against
    the value-level functions of `SliderSpec`, `AutoPlay` and `Swipe`. */
module ApartmentSliders {
  import opened Wrappers
  import opened SlideIndex
  import opened SliderSpec
  import opened AutoPlay
  import opened Swipe

  /** The slide command a finished touch gesture issues. */
  function Dispatch(s: Slider, command: Command): (r: Slider)
    requires Wf(s)
    ensures Wf(r)
  {
    match command
    case FireNext => NextSlide(s)
    case FirePrev => PrevSlide(s)
    case NoCommand => s
  }

  class ApartmentSlider {
    const hasContentPanels: bool
    const totalSlides: nat
    const hasImage: seq<bool>               // slide k holds an image with a source
    const slides: array<set<SlideClass>>    // classList of each slide element
    const panels: array<bool>               // `active` on the panel with data-slide == k
    const swipe: SwipeTracker               // the variables of addTouchSupport
    var currentSlide: nat
    var isAnimating: bool
    var pending: Option<Pending>            // the registered animationend listener
    var imagesLoaded: set<nat>
    var autoPlayInterval: Option<nat>
    var liveIntervals: set<nat>             // this slider's intervals the browser still runs
    var nextIntervalId: nat
    var startupRequests: seq<nat>           // the loaders preloadImages() started in init()

    ghost function Model(): Slider
      reads this, slides, panels
    {
      Slider(hasContentPanels, currentSlide, isAnimating, pending, slides[..], panels[..], imagesLoaded)
    }

    ghost function TimerState(): Timers
      reads this
    {
      Timers(autoPlayInterval, liveIntervals, nextIntervalId)
    }

    ghost predicate Valid()
      reads this, slides, panels
    {
      slides.Length == totalSlides && 0 < totalSlides && |hasImage| == totalSlides &&
      Wf(Model()) && TimersOk(TimerState()) &&
      (forall k :: k in imagesLoaded ==> k < totalSlides && hasImage[k]) &&
      startupRequests == InitialRequests(hasImage)
    }

    /** `new DesktopApartmentSlider()` (with panels) or `new ApartmentSlider()` on a root
        that exists: reads the slides, preloads every image, sets up the panels on desktop
        and starts auto-play. */
    constructor (hasContentPanels: bool, markup: seq<set<SlideClass>>, panelMarkup: seq<bool>,
                 hasImage: seq<bool>)
      requires |markup| > 0 && |hasImage| == |markup|
      ensures Valid() && fresh(slides) && fresh(panels) && fresh(swipe)
      ensures Model() == Initial(hasContentPanels, markup, panelMarkup)
      ensures TimerState() == Start(NoTimers)
      ensures swipe.State() == Released
      ensures startupRequests == InitialRequests(hasImage)
    {
      this.hasContentPanels := hasContentPanels;
      totalSlides := |markup|;
      this.hasImage := hasImage;
      slides := new set<SlideClass>[|markup|](k requires 0 <= k < |markup| => markup[k]);
      panels := new bool[|panelMarkup|](k requires 0 <= k < |panelMarkup| => panelMarkup[k]);
      swipe := new SwipeTracker();
      currentSlide := 0;
      isAnimating := false;
      pending := None;
      imagesLoaded := {};
      autoPlayInterval := None;
      liveIntervals := {};
      nextIntervalId := 1;
      startupRequests := [];
      new;
      assert slides[..] == markup;
      assert panels[..] == panelMarkup;
      startupRequests := PreloadImages();
      if hasContentPanels {
        UpdateContentVisibility();
      }
      StartAutoPlay();
    }

    /** `updateContentVisibility()`: switches every panel off, then the current one on. */
    method UpdateContentVisibility()
      requires Valid()
      modifies panels
      ensures Valid()
      ensures panels[..] == ShowOnly(panels.Length, currentSlide)
    {
      var j := 0;
      while j < panels.Length
        invariant 0 <= j <= panels.Length
        invariant forall i :: 0 <= i < j ==> !panels[i]
      {
        panels[j] := false;
        j := j + 1;
      }
      if currentSlide < panels.Length {
        panels[currentSlide] := true;
      }
    }

    /** `preloadImages()`: starts a loader for every slide that has an image. */
    method PreloadImages() returns (requests: seq<nat>)
      requires |hasImage| == totalSlides
      ensures requests == InitialRequests(hasImage)
      ensures forall k: nat :: k in requests <==> k < totalSlides && hasImage[k]
    {
      ghost var all := Indices(totalSlides);
      requests := [];
      var j := 0;
      while j < totalSlides
        invariant 0 <= j <= totalSlides
        invariant requests == Unloaded({}, hasImage, all[..j])
      {
        assert all[..j + 1] == all[..j] + [j];
        UnloadedSnoc({}, hasImage, all[..j], j);
        if hasImage[j] {
          requests := requests + [j];
        }
        j := j + 1;
      }
      assert all[..totalSlides] == all;
    }

    /** `preloadNextImages(index)`: starts a loader for the next and the previous slide
        of `index`, in that order, skipping those already loaded. */
    method PreloadNextImages(index: nat) returns (requests: seq<nat>)
      requires |hasImage| == totalSlides && index < totalSlides
      ensures requests == PreloadRequests(imagesLoaded, hasImage, index)
    {
      var candidates := Neighbours(index, totalSlides);
      requests := [];
      var j := 0;
      while j < |candidates|
        invariant 0 <= j <= |candidates|
        invariant requests == Unloaded(imagesLoaded, hasImage, candidates[..j])
      {
        var k := candidates[j];
        assert candidates[..j + 1] == candidates[..j] + [k];
        UnloadedSnoc(imagesLoaded, hasImage, candidates[..j], k);
        if k !in imagesLoaded && hasImage[k] {
          requests := requests + [k];
        }
        j := j + 1;
      }
      assert candidates[..|candidates|] == candidates;
    }

    /** `performSlideTransition(index, direction)`, called with the lock already taken. */
    method PerformSlideTransition(index: nat, direction: string)
      requires slides.Length == totalSlides && currentSlide < totalSlides
      requires index < totalSlides && index != currentSlide
      modifies this, slides, panels
      ensures Model() == Transition(old(Model()), index, direction)
      ensures TimerState() == old(TimerState())
      ensures startupRequests == old(startupRequests)
    {
      var c := currentSlide;
      ghost var before := Model();
      ghost var left := slides[c] - {Active} + {OutClass(direction)};
      ghost var entered := slides[index] + {Active, InClass(direction)};
      slides[c] := slides[c] - {Active};
      if hasContentPanels && c < panels.Length {
        panels[c] := false;
      }
      if direction == "next" {
        slides[c] := slides[c] + {SlideOut};
      } else {
        slides[c] := slides[c] + {SlideOutRight};
      }
      assert slides[..] == before.slides[c := left];
      currentSlide := index;
      slides[index] := slides[index] + {Active};
      if direction == "next" {
        slides[index] := slides[index] + {SlideIn};
      } else {
        slides[index] := slides[index] + {SlideInLeft};
      }
      assert slides[index] == entered;
      assert slides[c] == left;
      assert slides[..] == before.slides[c := left][index := entered];
      assert panels[..] == if hasContentPanels then SetPanel(before.panels, c, false) else before.panels;
      pending := Some(Pending(c, index));
    }

    /** `goToSlide(index, direction)`: a no-op while animating or when `index` is current;
        otherwise locks, preloads the target's neighbours and starts the transition. */
    method GoToSlide(index: nat, direction: string) returns (requests: seq<nat>)
      requires Valid() && index < totalSlides
      modifies this, slides, panels
      ensures Valid()
      ensures Model() == GoTo(old(Model()), index, direction)
      ensures requests == Requests(old(Model()), hasImage, index)
      ensures TimerState() == old(TimerState())
    {
      if isAnimating || index == currentSlide {
        return [];
      }
      isAnimating := true;
      requests := PreloadNextImages(index);
      PerformSlideTransition(index, direction);
    }

    /** The `animationend` listener of the running transition. */
    method OnAnimationEnd()
      requires Valid() && pending.Some?
      modifies this, slides, panels
      ensures Valid()
      ensures Model() == AnimationEnd(old(Model()))
      ensures TimerState() == old(TimerState())
    {
      var p := pending.value;
      slides[p.from] := slides[p.from] - {SlideOut, SlideOutRight};
      slides[p.to] := slides[p.to] - {SlideIn, SlideInLeft};
      if hasContentPanels && currentSlide < panels.Length {
        panels[currentSlide] := true;
      }
      isAnimating := false;
      pending := None;
    }

    /** `nextSlide()`: the next-button click, a swipe left and an auto-play tick. */
    method NextSlide() returns (requests: seq<nat>)
      requires Valid()
      modifies this, slides, panels
      ensures Valid()
      ensures Model() == SliderSpec.NextSlide(old(Model()))
      ensures requests == Requests(old(Model()), hasImage, NextIndex(old(currentSlide), totalSlides))
      ensures TimerState() == old(TimerState())
    {
      var nextIndex := (currentSlide + 1) % totalSlides;
      requests := GoToSlide(nextIndex, "next");
    }

    /** `prevSlide()`: the previous-button click and a swipe right. */
    method PrevSlide() returns (requests: seq<nat>)
      requires Valid()
      modifies this, slides, panels
      ensures Valid()
      ensures Model() == SliderSpec.PrevSlide(old(Model()))
      ensures requests == Requests(old(Model()), hasImage, PrevIndex(old(currentSlide), totalSlides))
      ensures TimerState() == old(TimerState())
    {
      var prevIndex := (currentSlide - 1 + totalSlides) % totalSlides;
      requests := GoToSlide(prevIndex, "prev");
    }

    /** An image loader's `onload`: slide `k` joins `imagesLoaded`. */
    method ImageLoaded(k: nat)
      requires Valid() && k < totalSlides && hasImage[k]
      modifies this
      ensures Valid()
      ensures imagesLoaded == old(imagesLoaded) + {k}
      ensures Model() == old(Model()).(loaded := old(imagesLoaded) + {k})
      ensures TimerState() == old(TimerState())
    {
      imagesLoaded := imagesLoaded + {k};
    }

    /** `stopAutoPlay()`, also the `mouseenter` handler. */
    method StopAutoPlay()
      requires Valid()
      modifies this
      ensures Valid()
      ensures TimerState() == Stop(old(TimerState()))
      ensures Model() == old(Model())
    {
      if autoPlayInterval.Some? {
        liveIntervals := liveIntervals - {autoPlayInterval.value};
        autoPlayInterval := None;
      }
    }

    /** `startAutoPlay()`, also the `mouseleave` handler. */
    method StartAutoPlay()
      requires Valid()
      modifies this
      ensures Valid()
      ensures TimerState() == Start(old(TimerState()))
      ensures Model() == old(Model())
    {
      StopAutoPlay();
      autoPlayInterval := Some(nextIntervalId);
      liveIntervals := liveIntervals + {nextIntervalId};
      nextIntervalId := nextIntervalId + 1;
    }

    /** One firing of the auto-play interval. */
    method AutoPlayTick() returns (requests: seq<nat>)
      requires Valid() && autoPlayInterval.Some?
      modifies this, slides, panels
      ensures Valid()
      ensures Model() == SliderSpec.NextSlide(old(Model()))
      ensures requests == Requests(old(Model()), hasImage, NextIndex(old(currentSlide), totalSlides))
      ensures TimerState() == old(TimerState())
    {
      requests := NextSlide();
    }

    /** The `touchend` handler: ends the gesture and fires the slide command it decides. */
    method TouchEnd() returns (requests: seq<nat>)
      requires Valid()
      modifies this, slides, panels, swipe
      ensures Valid()
      ensures swipe.State() == AfterTouchEnd(old(swipe.State()))
      ensures Model() == Dispatch(old(Model()), EndCommand(old(swipe.State())))
      ensures requests == match EndCommand(old(swipe.State()))
                          case FireNext => Requests(old(Model()), hasImage, NextIndex(old(currentSlide), totalSlides))
                          case FirePrev => Requests(old(Model()), hasImage, PrevIndex(old(currentSlide), totalSlides))
                          case NoCommand => []
      ensures TimerState() == old(TimerState())
    {
      var command := swipe.TouchEnd();
      match command
      case FireNext => requests := NextSlide();
      case FirePrev => requests := PrevSlide();
      case NoCommand => requests := [];
    }
  }
}
