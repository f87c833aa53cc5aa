/** The apartment slider as a value: which slide is current, the animation lock, the
    animation-end listener waiting to run, the class list of every slide, the active
    flag of every content panel (desktop variant) and the set of preloaded images.
    The functions here are the specification of the methods of `ApartmentSlider`. */
module SliderSpec {
  import opened Wrappers
  import opened SlideIndex

  /** The CSS classes the slider toggles; every other class of the markup is `Other`. */
  datatype SlideClass = Active | SlideOut | SlideOutRight | SlideIn | SlideInLeft | Other(name: string)

  const OutClasses: set<SlideClass> := {SlideOut, SlideOutRight}
  const InClasses: set<SlideClass> := {SlideIn, SlideInLeft}

  /** The classes a transition adds or removes; what is left is the slide's own markup. */
  function Base(classes: set<SlideClass>): set<SlideClass>
  {
    classes - {Active, SlideOut, SlideOutRight, SlideIn, SlideInLeft}
  }

  /** The `animationend` listener registered by a transition: the slide that was left
      (`current` in the source) and the slide that was entered (`next`). */
  datatype Pending = Pending(from: nat, to: nat)

  datatype Slider = Slider(
    hasContentPanels: bool,        // desktop variant: content panels follow the slide
    current: nat,                  // currentSlide
    isAnimating: bool,             // the animation lock
    pending: Option<Pending>,      // the registered animation-end listener, if any
    slides: seq<set<SlideClass>>,  // classList of every slide, in document order
    panels: seq<bool>,             // panels[k]: panel with data-slide == k carries `active`
    loaded: set<nat>)              // imagesLoaded

  /** Well-formedness: the index is in range and the lock is held exactly while a
      listener for the transition into the current slide is registered. */
  predicate Wf(s: Slider)
  {
    s.current < |s.slides| &&
    (s.isAnimating <==> s.pending.Some?) &&
    (s.pending.Some? ==>
      s.pending.value.from < |s.slides| && s.pending.value.from != s.current &&
      s.pending.value.to == s.current)
  }

  /** Exit and entry animation for a direction: only "next" slides one way, any other
      direction string slides the other way. */
  function OutClass(direction: string): (r: SlideClass)
    ensures r in OutClasses
    ensures r == SlideOut <==> direction == "next"
  {
    if direction == "next" then SlideOut else SlideOutRight
  }

  function InClass(direction: string): (r: SlideClass)
    ensures r in InClasses
    ensures r == SlideIn <==> direction == "next"
  {
    if direction == "next" then SlideIn else SlideInLeft
  }

  /** Sets the `active` flag of the panel with data-slide `k`, when there is one. */
  function SetPanel(panels: seq<bool>, k: nat, on: bool): (r: seq<bool>)
    ensures |r| == |panels|
    ensures forall j :: 0 <= j < |r| ==> r[j] == if j == k then on else panels[j]
  {
    if k < |panels| then panels[k := on] else panels
  }

  /** `performSlideTransition(index, direction)`: the old slide loses `active` and gets
      the exit class, the index moves, the new slide gets `active` and the entry class,
      the old content panel is switched off and the animation-end listener is registered. */
  function Transition(s: Slider, index: nat, direction: string): (r: Slider)
    requires s.current < |s.slides| && index < |s.slides| && index != s.current
    ensures r.current == index && r.pending == Some(Pending(s.current, index))
    ensures |r.slides| == |s.slides|
    ensures r.slides[s.current] == s.slides[s.current] - {Active} + {OutClass(direction)}
    ensures r.slides[index] == s.slides[index] + {Active, InClass(direction)}
    ensures forall k :: 0 <= k < |s.slides| && k != s.current && k != index ==> r.slides[k] == s.slides[k]
    ensures r.panels == if s.hasContentPanels then SetPanel(s.panels, s.current, false) else s.panels
    ensures r.isAnimating == s.isAnimating && r.loaded == s.loaded && r.hasContentPanels == s.hasContentPanels
  {
    var c := s.current;
    var left := s.slides[c := s.slides[c] - {Active} + {OutClass(direction)}];
    var entered := left[index := left[index] + {Active, InClass(direction)}];
    var panels := if s.hasContentPanels then SetPanel(s.panels, c, false) else s.panels;
    s.(current := index, pending := Some(Pending(c, index)), slides := entered, panels := panels)
  }

  /** `goToSlide(index, direction)`: ignored while the lock is held or when the target is
      already current; otherwise takes the lock and starts the transition. */
  function GoTo(s: Slider, index: nat, direction: string): (r: Slider)
    requires Wf(s) && index < |s.slides|
    ensures Wf(r)
    ensures s.isAnimating || index == s.current ==> r == s
    ensures !s.isAnimating && index != s.current ==>
              r.current == index && r.isAnimating && r.pending == Some(Pending(s.current, index))
    ensures r.loaded == s.loaded && r.hasContentPanels == s.hasContentPanels
    ensures |r.slides| == |s.slides| && |r.panels| == |s.panels|
  {
    if s.isAnimating || index == s.current then s
    else Transition(s.(isAnimating := true), index, direction)
  }

  /** Whether `goToSlide(index, …)` starts a transition. */
  predicate Accepts(s: Slider, index: nat)
  {
    !s.isAnimating && index != s.current
  }

  /** `nextSlide()` and `prevSlide()`. */
  function NextSlide(s: Slider): (r: Slider)
    requires Wf(s)
    ensures Wf(r)
  {
    GoTo(s, NextIndex(s.current, |s.slides|), "next")
  }

  function PrevSlide(s: Slider): (r: Slider)
    requires Wf(s)
    ensures Wf(r)
  {
    GoTo(s, PrevIndex(s.current, |s.slides|), "prev")
  }

  /** The `onAnimationEnd` listener: both animation classes of the transition are removed
      from both slides, the desktop panel of the (unchanged) current slide is switched
      on, and the lock is released. */
  function AnimationEnd(s: Slider): (r: Slider)
    requires Wf(s) && s.pending.Some?
    ensures Wf(r) && !r.isAnimating && r.pending == None
    ensures r.current == s.current && r.loaded == s.loaded && r.hasContentPanels == s.hasContentPanels
    ensures |r.slides| == |s.slides|
    ensures r.slides[s.pending.value.from] == s.slides[s.pending.value.from] - OutClasses
    ensures r.slides[s.current] == s.slides[s.current] - InClasses
    ensures forall k :: 0 <= k < |s.slides| && k != s.pending.value.from && k != s.current ==>
              r.slides[k] == s.slides[k]
    ensures r.panels == if s.hasContentPanels then SetPanel(s.panels, s.current, true) else s.panels
  {
    var p := s.pending.value;
    var left := s.slides[p.from := s.slides[p.from] - {SlideOut, SlideOutRight}];
    var entered := left[p.to := left[p.to] - {SlideIn, SlideInLeft}];
    var panels := if s.hasContentPanels then SetPanel(s.panels, s.current, true) else s.panels;
    s.(isAnimating := false, pending := None, slides := entered, panels := panels)
  }

  /** The browser delivers the pending animation-end, if a transition was started. */
  function Finish(s: Slider): (r: Slider)
    requires Wf(s)
    ensures Wf(r) && !r.isAnimating
  {
    if s.pending.Some? then AnimationEnd(s) else s
  }

  /** `updateContentVisibility()`: every panel loses `active`, then the panel of slide `k`
      (if there is one) gets it. */
  function ShowOnly(n: nat, k: nat): (r: seq<bool>)
    ensures |r| == n
    ensures forall j :: 0 <= j < n ==> (r[j] <==> j == k)
  {
    seq(n, j => j == k)
  }

  /** The slider right after construction: slide 0, unlocked, the markup's classes, and
      (desktop) the panels as `updateContentVisibility` leaves them. */
  function Initial(hasContentPanels: bool, markup: seq<set<SlideClass>>, panelMarkup: seq<bool>): (r: Slider)
    requires |markup| > 0
    ensures Wf(r)
    ensures r.current == 0 && !r.isAnimating && r.pending == None && r.loaded == {}
    ensures r.slides == markup && |r.panels| == |panelMarkup|
    ensures r.hasContentPanels == hasContentPanels
    ensures hasContentPanels ==> forall k :: 0 <= k < |r.panels| ==> (r.panels[k] <==> k == 0)
    ensures !hasContentPanels ==> r.panels == panelMarkup
  {
    Slider(hasContentPanels, 0, false, None, markup,
           if hasContentPanels then ShowOnly(|panelMarkup|, 0) else panelMarkup, {})
  }

  /** Markup that marks slide 0, and only it, `active` and carries no animation class
      yields a settled slider. */
  lemma InitialSettled(hasContentPanels: bool, markup: seq<set<SlideClass>>, panelMarkup: seq<bool>)
    requires |markup| > 0
    requires forall k :: 0 <= k < |markup| ==>
               (Active in markup[k] <==> k == 0) && markup[k] * (OutClasses + InClasses) == {}
    ensures Settled(Initial(hasContentPanels, markup, panelMarkup))
  {
  }

  /** The images `goToSlide(index, …)` starts loading: none when the call is ignored. */
  function Requests(s: Slider, hasImage: seq<bool>, index: nat): (r: seq<nat>)
    requires |hasImage| == |s.slides| && index < |s.slides|
    ensures !Accepts(s, index) ==> r == []
    ensures |r| <= 2
    ensures forall k :: k in r ==>
              (k == NextIndex(index, |s.slides|) || k == PrevIndex(index, |s.slides|)) &&
              k !in s.loaded && hasImage[k]
    ensures Accepts(s, index) ==>
              forall k :: k in Neighbours(index, |s.slides|) && k !in s.loaded && hasImage[k] ==> k in r
  {
    if Accepts(s, index) then PreloadRequests(s.loaded, hasImage, index) else []
  }

  /** The slides that carry `active`. */
  function ActiveSlides(s: Slider): set<nat>
  {
    set k: nat | k < |s.slides| && Active in s.slides[k]
  }

  /** Idle and tidy: `active` on the current slide only, no animation class anywhere, and
      (desktop) only the current slide's panel active, as `updateContentVisibility` leaves it. */
  predicate Settled(s: Slider)
  {
    Wf(s) && !s.isAnimating &&
    (forall k :: 0 <= k < |s.slides| ==> (Active in s.slides[k] <==> k == s.current)) &&
    (forall k :: 0 <= k < |s.slides| ==> s.slides[k] * (OutClasses + InClasses) == {}) &&
    (s.hasContentPanels ==> forall k :: 0 <= k < |s.panels| ==> s.panels[k] == (k == s.current))
  }

  /** During a transition: `active` on the new current slide only, animation classes only
      on the two slides of the transition (exit on the old, entry on the new), and
      (desktop) no panel active. */
  predicate InFlight(s: Slider)
  {
    Wf(s) && s.isAnimating &&
    (forall k :: 0 <= k < |s.slides| ==> (Active in s.slides[k] <==> k == s.current)) &&
    (forall k :: 0 <= k < |s.slides| && k != s.pending.value.from && k != s.current ==>
       s.slides[k] * (OutClasses + InClasses) == {}) &&
    s.slides[s.pending.value.from] * InClasses == {} &&
    s.slides[s.current] * OutClasses == {} &&
    (s.hasContentPanels ==> forall k :: 0 <= k < |s.panels| ==> !s.panels[k])
  }

  /** Exactly one slide, the current one, is active, whether idle or mid-transition. */
  lemma ExactlyOneActive(s: Slider)
    requires Settled(s) || InFlight(s)
    ensures ActiveSlides(s) == {s.current}
  {
  }

  /** An accepted `goToSlide` from an idle slider starts a well-formed transition: the old
      slide and its panel are switched off at once, the new slide is active. */
  lemma GoToStartsTransition(s: Slider, index: nat, direction: string)
    requires Settled(s) && index < |s.slides| && index != s.current
    ensures InFlight(GoTo(s, index, direction))
  {
  }

  /** The animation-end of a transition leaves the slider idle and tidy on the same slide;
      on desktop it is only now that the new slide's panel becomes active. */
  lemma AnimationEndSettles(s: Slider)
    requires InFlight(s)
    ensures Settled(AnimationEnd(s))
  {
  }

  /** Every step of the slider keeps it idle-and-tidy or mid-transition: `goToSlide`,
      accepted or ignored, and the animation-end of a pending transition. */
  lemma PhaseKept(s: Slider, index: nat, direction: string)
    requires Settled(s) || InFlight(s)
    requires index < |s.slides|
    ensures Settled(GoTo(s, index, direction)) || InFlight(GoTo(s, index, direction))
    ensures s.pending.Some? ==> Settled(AnimationEnd(s))
  {
    if Settled(s) && index != s.current {
      GoToStartsTransition(s, index, direction);
    }
    if s.pending.Some? {
      AnimationEndSettles(s);
    }
  }

  /** One press of "next" (or one timer tick) followed by the animation-end. */
  function NextRound(s: Slider): (r: Slider)
    requires Wf(s)
    ensures Wf(r)
  {
    Finish(NextSlide(s))
  }

  function PrevRound(s: Slider): (r: Slider)
    requires Wf(s)
    ensures Wf(r)
  {
    Finish(PrevSlide(s))
  }

  /** What a round of transitions cannot change: the variant, the number of slides and
      panels, each slide's own classes, the preloaded images and (mobile) the panels. */
  predicate SameFrame(s: Slider, t: Slider)
  {
    s.hasContentPanels == t.hasContentPanels && |s.slides| == |t.slides| &&
    |s.panels| == |t.panels| && s.loaded == t.loaded &&
    (!s.hasContentPanels ==> s.panels == t.panels) &&
    forall k :: 0 <= k < |s.slides| ==> Base(s.slides[k]) == Base(t.slides[k])
  }

  /** A settled slider is determined by its frame and its current index. */
  lemma SettledByCurrent(s: Slider, t: Slider)
    requires Settled(s) && Settled(t) && SameFrame(s, t) && s.current == t.current
    ensures s == t
  {
    forall k | 0 <= k < |s.slides| ensures s.slides[k] == t.slides[k] {
      var a, b := s.slides[k], t.slides[k];
      assert a == Base(a) + (if k == s.current then {Active} else {});
      assert b == Base(b) + (if k == t.current then {Active} else {});
    }
    if s.hasContentPanels {
      assert forall k :: 0 <= k < |s.panels| ==> s.panels[k] == t.panels[k];
    }
  }

  /** A round moves a settled slider to the transition's target and settles it again,
      keeping its frame; a round that is not accepted changes nothing. */
  lemma RoundSettles(s: Slider, index: nat, direction: string)
    requires Settled(s) && index < |s.slides|
    ensures Settled(Finish(GoTo(s, index, direction)))
    ensures SameFrame(s, Finish(GoTo(s, index, direction)))
    ensures Finish(GoTo(s, index, direction)).current == index
  {
  }

  /** `k` rounds of "next". */
  function NextRounds(s: Slider, k: nat): (r: Slider)
    requires Wf(s)
    ensures Wf(r)
  {
    if k == 0 then s else NextRound(NextRounds(s, k - 1))
  }

  /** After `k` rounds of "next" a settled slider shows slide `Advance(current, N, k)`,
      settled, with its frame unchanged. */
  lemma {:induction false} NextRoundsAdvance(s: Slider, k: nat)
    requires Settled(s)
    ensures Settled(NextRounds(s, k)) && SameFrame(s, NextRounds(s, k))
    ensures NextRounds(s, k).current == Advance(s.current, |s.slides|, k)
  {
    if k > 0 {
      NextRoundsAdvance(s, k - 1);
      var p := NextRounds(s, k - 1);
      RoundSettles(p, NextIndex(p.current, |p.slides|), "next");
    }
  }

  /** N rounds of "next" on N slides bring the slider back to exactly where it started. */
  lemma NextLapRestores(s: Slider)
    requires Settled(s)
    ensures NextRounds(s, |s.slides|) == s
  {
    NextRoundsAdvance(s, |s.slides|);
    FullLap(s.current, |s.slides|);
    SettledByCurrent(NextRounds(s, |s.slides|), s);
  }

  /** "prev" then "next" (each with its animation-end) restores a settled slider, and so
      does "next" then "prev". */
  lemma PrevNextRestores(s: Slider)
    requires Settled(s)
    ensures NextRound(PrevRound(s)) == s
    ensures PrevRound(NextRound(s)) == s
  {
    var n := |s.slides|;
    NextPrevInverse(s.current, n);
    RoundSettles(s, PrevIndex(s.current, n), "prev");
    var p := PrevRound(s);
    RoundSettles(p, NextIndex(p.current, n), "next");
    SettledByCurrent(NextRound(p), s);
    RoundSettles(s, NextIndex(s.current, n), "next");
    var q := NextRound(s);
    RoundSettles(q, PrevIndex(q.current, n), "prev");
    SettledByCurrent(PrevRound(q), s);
  }

  /** The index cycle holds for any markup: from an idle slider, a round of "next"
      moves to the next index and a round of "prev" to the previous one, and ends idle. */
  lemma RoundIndex(s: Slider)
    requires Wf(s) && !s.isAnimating
    ensures !NextRound(s).isAnimating && NextRound(s).current == NextIndex(s.current, |s.slides|)
    ensures !PrevRound(s).isAnimating && PrevRound(s).current == PrevIndex(s.current, |s.slides|)
  {
  }

  /** From an idle slider, with any markup, `k` rounds of "next" move the index `k` steps
      forward. */
  lemma {:induction false} NextRoundsIndex(s: Slider, k: nat)
    requires Wf(s) && !s.isAnimating
    ensures !NextRounds(s, k).isAnimating
    ensures NextRounds(s, k).current == Advance(s.current, |s.slides|, k)
    ensures |NextRounds(s, k).slides| == |s.slides|
  {
    if k > 0 {
      NextRoundsIndex(s, k - 1);
      RoundIndex(NextRounds(s, k - 1));
    }
  }

  /** With any markup, N rounds of "next" bring an idle slider back to its index, and a
      round of "prev" then one of "next" (or the reverse) does too. */
  lemma IndexCycle(s: Slider)
    requires Wf(s) && !s.isAnimating
    ensures NextRounds(s, |s.slides|).current == s.current
    ensures NextRound(PrevRound(s)).current == s.current
    ensures PrevRound(NextRound(s)).current == s.current
  {
    NextRoundsIndex(s, |s.slides|);
    FullLap(s.current, |s.slides|);
    NextPrevInverse(s.current, |s.slides|);
    RoundIndex(s);
    RoundIndex(PrevRound(s));
    RoundIndex(NextRound(s));
  }

  /** The desktop panels, whatever the slides' classes: only the current slide's panel is
      active while idle, and no panel while a transition runs. */
  predicate PanelsOk(s: Slider)
  {
    Wf(s) &&
    (s.hasContentPanels && !s.isAnimating ==>
       forall k :: 0 <= k < |s.panels| ==> s.panels[k] == (k == s.current)) &&
    (s.hasContentPanels && s.isAnimating ==>
       forall k :: 0 <= k < |s.panels| ==> !s.panels[k])
  }

  /** `updateContentVisibility` at construction sets the panels up for any markup. */
  lemma InitialPanelsOk(hasContentPanels: bool, markup: seq<set<SlideClass>>, panelMarkup: seq<bool>)
    requires |markup| > 0
    ensures PanelsOk(Initial(hasContentPanels, markup, panelMarkup))
  {
  }

  /** `goToSlide`, accepted or ignored, and the animation-end keep the panel rule: the old
      panel goes dark when a transition starts, the new one lights at its end. */
  lemma PanelsKept(s: Slider, index: nat, direction: string)
    requires PanelsOk(s) && index < |s.slides|
    ensures PanelsOk(GoTo(s, index, direction))
    ensures s.pending.Some? ==> PanelsOk(AnimationEnd(s))
  {
  }

  /** The constructor never sets `active` itself: from HTML that marks slides 0 and 1
      `active`, a full lap of three "next" rounds leaves only slide 0 active, so the
      slider is not restored. */
  lemma DoubleActiveNotRestored()
    ensures var s := Initial(false, [{Active}, {Active}, {}], []);
            NextRounds(s, 3).slides == [{Active}, {}, {}] && NextRounds(s, 3) != s
  {
    var s := Initial(false, [{Active}, {Active}, {}], []);
    assert {Active} - {Active} + {SlideOut} == {SlideOut};
    assert {SlideOut} - {SlideOut, SlideOutRight} == {};
    assert {Active, SlideIn} - {SlideIn, SlideInLeft} == {Active};
    assert OutClass("next") == SlideOut && InClass("next") == SlideIn;
    assert {Active} + {Active, SlideIn} == {Active, SlideIn};
    assert {} + {Active, SlideIn} == {Active, SlideIn};
    var g1 := GoTo(s, 1, "next");
    assert g1.slides == [{SlideOut}, {Active, SlideIn}, {}];
    assert NextRounds(s, 1) == AnimationEnd(g1);
    var s1 := NextRounds(s, 1);
    assert s1.slides == [{}, {Active}, {}];
    var g2 := GoTo(s1, 2, "next");
    assert g2.slides == [{}, {SlideOut}, {Active, SlideIn}];
    assert NextRounds(s, 2) == AnimationEnd(g2);
    var s2 := NextRounds(s, 2);
    assert s2.slides == [{}, {}, {Active}];
    var g3 := GoTo(s2, 0, "next");
    assert g3.slides == [{Active, SlideIn}, {}, {SlideOut}];
    assert NextRounds(s, 3) == AnimationEnd(g3);
  }

  /** With a single slide, "next" and "prev" target the current slide and do nothing. */
  lemma SingleSlideStays(s: Slider)
    requires Wf(s) && |s.slides| == 1
    ensures NextSlide(s) == s && PrevSlide(s) == s
  {
  }
}
