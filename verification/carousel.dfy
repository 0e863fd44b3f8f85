/**
 * The testimonials carousel (js/modules/carousel.js): a slide index guarded
 * by a transition flag, wrap-around next/previous, the swipe threshold, the
 * autoplay interval, and the classes that mark the current slide and
 * indicator.
 *
 * `currentSlide` is a JavaScript number: with no slides, `nextSlide`
 * computes `1 % 0`, which is NaN, and every comparison in `goToSlide`'s
 * guard is false for NaN. Timers are events: the 300 ms cool-down is
 * `CooldownElapsed`, a tick of the autoplay interval is `AutoplayTick`.
 */
module Carousel {
  import opened Js

  /** `minSwipeDistance` */
  const MinSwipeDistance := 50
  /** The initial `autoplayDelay`, in ms. */
  const DefaultAutoplayDelay := 5000

  /** `nextSlide`'s target: `(currentSlide + 1) % totalSlides`. */
  function NextIndex(c: Number, n: nat): (r: Number)
    ensures n == 0 ==> r == NaN
    ensures n > 0 && c.Int? && 0 <= c.i < n ==> r.Int? && 0 <= r.i < n
  {
    match c
    case NaN => NaN
    case Int(i) => Rem(i + 1, n)
  }

  /** `previousSlide`'s target: the last slide from slide 0, else one back. */
  function PrevIndex(c: Number, n: nat): (r: Number)
    ensures n > 0 && c.Int? && 0 <= c.i < n ==> r.Int? && 0 <= r.i < n
  {
    if c == Int(0) then Int(n - 1) else c.Plus(-1)
  }

  /** On a non-empty carousel, next then previous, or previous then next, returns to the same slide. */
  lemma NextPrevInverse(c: int, n: nat)
    requires 0 <= c < n
    ensures PrevIndex(NextIndex(Int(c), n), n) == Int(c)
    ensures NextIndex(PrevIndex(Int(c), n), n) == Int(c)
  {
    if c + 1 < n {
      ModUnique(c + 1, 0, c + 1, n);
      assert NextIndex(Int(c), n) == Int(c + 1);
    } else {
      ModUnique(c + 1, 1, 0, n);
      assert NextIndex(Int(c), n) == Int(0);
    }
    if c == 0 {
      ModUnique(n, 1, 0, n);
      assert NextIndex(Int(n - 1), n) == Int(0);
    } else {
      ModUnique(c, 0, c, n);
      assert NextIndex(Int(c - 1), n) == Int(c);
    }
  }

  /** The slide reached after `k` steps of `nextSlide`. */
  function NextSteps(c: Number, n: nat, k: nat): Number {
    if k == 0 then c else NextIndex(NextSteps(c, n, k - 1), n)
  }

  /** `k` steps forward from slide `c` reach slide `(c + k) mod n`. */
  lemma {:induction false} NextStepsMod(c: int, n: nat, k: nat)
    requires 0 <= c < n
    ensures NextSteps(Int(c), n, k) == Int((c + k) % n)
  {
    if k > 0 {
      NextStepsMod(c, n, k - 1);
      var p := (c + k - 1) % n;
      assert NextSteps(Int(c), n, k) == Rem(p + 1, n);
      ModSucc(c + k - 1, n);
    }
  }

  lemma ModSucc(a: nat, n: nat)
    requires n > 0
    ensures (a % n + 1) % n == (a + 1) % n
  {
    var q, r := a / n, a % n;
    assert a == q * n + r;
    if r + 1 < n {
      ModUnique(a + 1, q, r + 1, n);
    } else {
      assert a + 1 == (q + 1) * n;
      ModUnique(a + 1, q + 1, 0, n);
    }
  }

  /** `n` steps of `nextSlide` go once round the carousel and back to the start. */
  lemma FullCycle(c: int, n: nat)
    requires 0 <= c < n
    ensures NextSteps(Int(c), n, n) == Int(c)
  {
    NextStepsMod(c, n, n);
    ModUnique(c + n, 1, c, n);
  }

  /** The classes a slide carries. */
  datatype SlideView = SlideView(active: bool, prev: bool)

  /** The class `carousel-indicator--active` and the `aria-current` attribute. */
  datatype IndicatorView = IndicatorView(active: bool, ariaCurrent: bool)

  /** The page events `setupEventListeners` listens to. */
  datatype PageEvent =
    | PrevClick
    | NextClick
    | IndicatorClick(index: nat)
    | KeyDown(key: string, inViewport: bool)
    | MouseEnter
    | MouseLeave
    | VisibilityChange(hidden: bool)
    | TouchStartAt(x: int)
    | TouchEndAt(x: int)

  /** The direction a touch gesture asks for. */
  datatype Swipe = NoSwipe | SwipeNext | SwipePrevious

  /**
   * `handleSwipe`: a horizontal distance of more than `minSwipeDistance`
   * goes forward when the finger moved left and back when it moved right.
   */
  function SwipeOf(startX: int, endX: int): (r: Swipe)
    ensures r == NoSwipe <==> -MinSwipeDistance <= startX - endX <= MinSwipeDistance
    ensures r == SwipeNext <==> startX - endX > MinSwipeDistance
  {
    var distance := startX - endX;
    var magnitude := if distance < 0 then -distance else distance;
    if magnitude > MinSwipeDistance then
      if distance > 0 then SwipeNext else SwipePrevious
    else NoSwipe
  }

  class CarouselManager {
    const totalSlides: nat
    const slides: array<SlideView>
    const indicators: array<IndicatorView>

    var currentSlide: Number
    var isTransitioning: bool
    /** The 300 ms timeout that clears `isTransitioning` is pending. */
    var cooldownPending: bool
    /** The id `setInterval` returned, while autoplay runs. */
    var autoplayInterval: Option<nat>
    var autoplayDelay: int
    /** The live intervals, with their periods. */
    var timers: map<nat, int>
    /** The next id `setInterval` hands out; ids are positive. */
    var nextTimerId: nat
    var touchStartX: int
    var touchEndX: int
    /** The page listeners `setupEventListeners` registered are still attached. */
    var listening: bool

    /** The state every method keeps, whatever the slide classes show. */
    ghost predicate Wellformed()
      reads this
    {
      && slides.Length == totalSlides
      && cooldownPending == isTransitioning
      && (currentSlide.Int? && totalSlides > 0 ==> 0 <= currentSlide.i < totalSlides)
      && (autoplayInterval.None? ==> timers == map[])
      && (autoplayInterval.Some? ==> timers.Keys == {autoplayInterval.value} && totalSlides > 1)
      && (forall id :: id in timers ==> 0 < id < nextTimerId)
      && nextTimerId > 0
    }

    /**
     * Exactly the slide at `currentSlide` is active and none has `prev`;
     * exactly the indicator at `currentSlide` is active and has `aria-current`.
     */
    ghost predicate Displayed()
      reads this, slides, indicators
    {
      && (forall k :: 0 <= k < slides.Length ==> slides[k] == SlideView(currentSlide == Int(k), false))
      && (forall k :: 0 <= k < indicators.Length ==>
            indicators[k] == IndicatorView(currentSlide == Int(k), currentSlide == Int(k)))
    }

    ghost predicate Valid()
      reads this, slides, indicators
    {
      Wellformed() && Displayed()
    }

    /**
     * The manager after `init`. Without the carousel element there are no
     * slides, no indicators and no listeners. With it, the listeners are
     * attached, slide 0 is requested, autoplay starts when there are at
     * least two slides, and `updateCarousel` draws the classes.
     */
    constructor (hasCarousel: bool, totalSlides: nat, indicatorCount: nat)
      requires hasCarousel || (totalSlides == 0 && indicatorCount == 0)
      ensures Valid() && fresh(slides) && fresh(indicators)
      ensures this.totalSlides == totalSlides && indicators.Length == indicatorCount
      ensures listening == hasCarousel
      ensures currentSlide == Int(0)
      ensures isTransitioning <==> hasCarousel && totalSlides > 0
      ensures autoplayInterval.Some? <==> hasCarousel && totalSlides > 1
      ensures autoplayInterval.Some? ==> timers == map[autoplayInterval.value := DefaultAutoplayDelay]
      ensures autoplayDelay == DefaultAutoplayDelay
    {
      this.totalSlides := totalSlides;
      slides := new SlideView[totalSlides](_ => SlideView(false, false));
      indicators := new IndicatorView[indicatorCount](_ => IndicatorView(false, false));
      currentSlide := Int(0);
      isTransitioning := false;
      cooldownPending := false;
      autoplayInterval := None;
      autoplayDelay := DefaultAutoplayDelay;
      timers := map[];
      nextTimerId := 1;
      touchStartX := 0;
      touchEndX := 0;
      listening := hasCarousel;
      new;
      if hasCarousel {
        var _ := GoToSlide(Int(0));
        SetupAutoplay();
        UpdateCarousel();
      } else {
        assert Displayed();
      }
    }

    /**
     * `goToSlide(index)`: refused while a transition runs or when the index
     * is below 0 or at least `totalSlides` (NaN is neither, so it passes);
     * otherwise the index becomes current, the classes are redrawn and the
     * cool-down starts.
     */
    method GoToSlide(index: Number) returns (accepted: bool)
      requires Wellformed()
      modifies this, slides, indicators
      ensures Wellformed()
      ensures accepted <==> !old(isTransitioning) && !index.Lt(0) && !index.Ge(totalSlides)
      ensures accepted ==> currentSlide == index && isTransitioning && Displayed()
      ensures !accepted ==> currentSlide == old(currentSlide) && isTransitioning == old(isTransitioning)
                            && slides[..] == old(slides[..]) && indicators[..] == old(indicators[..])
      ensures autoplayInterval == old(autoplayInterval) && timers == old(timers)
      ensures nextTimerId == old(nextTimerId) && autoplayDelay == old(autoplayDelay)
      ensures touchStartX == old(touchStartX) && touchEndX == old(touchEndX) && listening == old(listening)
    {
      if isTransitioning || index.Lt(0) || index.Ge(totalSlides) {
        return false;
      }
      isTransitioning := true;
      var previous := currentSlide;
      currentSlide := index;
      UpdateTrackPosition();
      UpdateIndicators();
      HandleSlideTransition(previous, index);
      cooldownPending := true;
      return true;
    }

    /** The 300 ms timeout of an accepted `goToSlide`: the only place the flag is cleared. */
    method CooldownElapsed()
      requires Valid() && cooldownPending
      modifies this
      ensures listening == old(listening)
      ensures Valid()
      ensures !isTransitioning && currentSlide == old(currentSlide)
      ensures autoplayInterval == old(autoplayInterval) && timers == old(timers)
      ensures nextTimerId == old(nextTimerId) && autoplayDelay == old(autoplayDelay)
    {
      isTransitioning := false;
      cooldownPending := false;
    }

    /** `updateTrackPosition`: only the current slide is active, and no slide has `prev`. */
    method UpdateTrackPosition()
      modifies slides
      ensures forall k :: 0 <= k < slides.Length ==> slides[k] == SlideView(currentSlide == Int(k), false)
    {
      var k := 0;
      while k < slides.Length
        invariant 0 <= k <= slides.Length
        invariant forall j :: 0 <= j < k ==> slides[j] == SlideView(false, false)
      {
        slides[k] := SlideView(false, false);
        k := k + 1;
      }
      if currentSlide.Int? && 0 <= currentSlide.i < slides.Length {
        slides[currentSlide.i] := slides[currentSlide.i].(active := true);
      }
    }

    /** `updateIndicators`: only the current indicator is active and has `aria-current`. */
    method UpdateIndicators()
      modifies indicators
      ensures forall k :: 0 <= k < indicators.Length ==>
                indicators[k] == IndicatorView(currentSlide == Int(k), currentSlide == Int(k))
    {
      var k := 0;
      while k < indicators.Length
        invariant 0 <= k <= indicators.Length
        invariant forall j :: 0 <= j < k ==>
                    indicators[j] == IndicatorView(currentSlide == Int(j), currentSlide == Int(j))
      {
        if currentSlide == Int(k) {
          indicators[k] := IndicatorView(true, true);
        } else {
          indicators[k] := IndicatorView(false, false);
        }
        k := k + 1;
      }
    }

    /**
     * `handleSlideTransition(previous, index)`: `active` off the previous
     * slide and on the new one, each only when that slide exists.
     */
    method HandleSlideTransition(previous: Number, index: Number)
      modifies slides
      ensures forall k :: 0 <= k < slides.Length ==>
                slides[k] == if index == Int(k) then old(slides[k]).(active := true)
                             else if previous == Int(k) then old(slides[k]).(active := false)
                             else old(slides[k])
    {
      if previous.Int? && 0 <= previous.i < slides.Length {
        slides[previous.i] := slides[previous.i].(active := false);
      }
      if index.Int? && 0 <= index.i < slides.Length {
        slides[index.i] := slides[index.i].(active := true);
      }
    }

    /** `updateCarousel`: redraws the slide and indicator classes. */
    method UpdateCarousel()
      requires Wellformed()
      modifies slides, indicators
      ensures Valid()
    {
      UpdateTrackPosition();
      UpdateIndicators();
    }

    /** `nextSlide` */
    method NextSlide() returns (accepted: bool)
      requires Valid()
      modifies this, slides, indicators
      ensures listening == old(listening)
      ensures Valid()
      ensures accepted <==> !old(isTransitioning)
      ensures accepted ==> currentSlide == NextIndex(old(currentSlide), totalSlides) && isTransitioning
      ensures !accepted ==> currentSlide == old(currentSlide) && isTransitioning == old(isTransitioning)
      ensures autoplayInterval == old(autoplayInterval) && timers == old(timers)
      ensures nextTimerId == old(nextTimerId) && autoplayDelay == old(autoplayDelay)
      ensures touchStartX == old(touchStartX) && touchEndX == old(touchEndX)
    {
      accepted := GoToSlide(NextIndex(currentSlide, totalSlides));
    }

    /** `previousSlide` */
    method PreviousSlide() returns (accepted: bool)
      requires Valid()
      modifies this, slides, indicators
      ensures listening == old(listening)
      ensures Valid()
      ensures totalSlides > 0 ==> (accepted <==> !old(isTransitioning))
      ensures accepted ==> !old(isTransitioning) && currentSlide == PrevIndex(old(currentSlide), totalSlides) && isTransitioning
      ensures !accepted ==> currentSlide == old(currentSlide) && isTransitioning == old(isTransitioning)
      ensures autoplayInterval == old(autoplayInterval) && timers == old(timers)
      ensures nextTimerId == old(nextTimerId) && autoplayDelay == old(autoplayDelay)
      ensures touchStartX == old(touchStartX) && touchEndX == old(touchEndX)
    {
      accepted := GoToSlide(PrevIndex(currentSlide, totalSlides));
    }

    /** `touchstart`: records where the finger went down. */
    method TouchStart(x: int)
      requires Valid()
      modifies this
      ensures listening == old(listening)
      ensures Valid() && touchStartX == x
      ensures currentSlide == old(currentSlide) && isTransitioning == old(isTransitioning)
      ensures autoplayInterval == old(autoplayInterval) && timers == old(timers)
    {
      touchStartX := x;
    }

    /** `touchend`: records where the finger came up, then `handleSwipe`. */
    method TouchEnd(x: int) returns (swipe: Swipe)
      requires Valid()
      modifies this, slides, indicators
      ensures listening == old(listening)
      ensures Valid() && touchEndX == x
      ensures swipe == SwipeOf(touchStartX, x)
      ensures swipe == NoSwipe ==> currentSlide == old(currentSlide) && isTransitioning == old(isTransitioning)
      ensures swipe == SwipeNext && !old(isTransitioning) && totalSlides > 0
              ==> currentSlide == NextIndex(old(currentSlide), totalSlides)
      ensures swipe == SwipePrevious && !old(isTransitioning) && totalSlides > 0
              ==> currentSlide == PrevIndex(old(currentSlide), totalSlides)
      ensures autoplayInterval == old(autoplayInterval) && timers == old(timers)
    {
      touchEndX := x;
      swipe := SwipeOf(touchStartX, touchEndX);
      match swipe {
        case NoSwipe =>
        case SwipeNext =>
          var _ := NextSlide();
        case SwipePrevious =>
          var _ := PreviousSlide();
      }
    }

    /**
     * `keydown` while the carousel is in the viewport: ArrowLeft goes back,
     * ArrowRight forward, any other key does nothing.
     */
    method OnKeyDown(key: string, inViewport: bool) returns (moved: bool)
      requires Valid()
      modifies this, slides, indicators
      ensures listening == old(listening)
      ensures Valid()
      ensures moved ==> inViewport && (key == "ArrowLeft" || key == "ArrowRight") && !old(isTransitioning)
      ensures inViewport && key == "ArrowRight" ==> (moved <==> !old(isTransitioning))
      ensures inViewport && key == "ArrowLeft" && totalSlides > 0 ==> (moved <==> !old(isTransitioning))
      ensures moved && key == "ArrowLeft" ==> currentSlide == PrevIndex(old(currentSlide), totalSlides) && isTransitioning
      ensures moved && key == "ArrowRight" ==> currentSlide == NextIndex(old(currentSlide), totalSlides) && isTransitioning
      ensures !moved ==> currentSlide == old(currentSlide) && isTransitioning == old(isTransitioning)
      ensures autoplayInterval == old(autoplayInterval) && timers == old(timers)
    {
      moved := false;
      if inViewport {
        if key == "ArrowLeft" {
          moved := PreviousSlide();
        } else if key == "ArrowRight" {
          moved := NextSlide();
        }
      }
    }

    /** `setupAutoplay`: with at least two slides, a new interval with the current delay. */
    method SetupAutoplay()
      requires Wellformed() && autoplayInterval.None?
      modifies this
      ensures listening == old(listening)
      ensures Wellformed()
      ensures totalSlides > 1 ==> autoplayInterval == Some(old(nextTimerId))
                                  && timers == map[old(nextTimerId) := autoplayDelay]
      ensures totalSlides <= 1 ==> autoplayInterval.None? && timers == map[]
      ensures currentSlide == old(currentSlide) && isTransitioning == old(isTransitioning)
      ensures autoplayDelay == old(autoplayDelay) && touchStartX == old(touchStartX) && touchEndX == old(touchEndX)
    {
      if totalSlides <= 1 {
        return;
      }
      timers := timers[nextTimerId := autoplayDelay];
      autoplayInterval := Some(nextTimerId);
      nextTimerId := nextTimerId + 1;
    }

    /** `pauseAutoplay`: clears the running interval, if any; afterwards none runs. */
    method PauseAutoplay()
      requires Valid()
      modifies this
      ensures listening == old(listening)
      ensures Valid()
      ensures autoplayInterval.None? && timers == map[]
      ensures currentSlide == old(currentSlide) && isTransitioning == old(isTransitioning)
      ensures autoplayDelay == old(autoplayDelay) && nextTimerId == old(nextTimerId)
    {
      if autoplayInterval.Some? {
        timers := map[];
        autoplayInterval := None;
      }
    }

    /** `resumeAutoplay`: starts an interval only with at least two slides and none running. */
    method ResumeAutoplay()
      requires Valid()
      modifies this
      ensures listening == old(listening)
      ensures Valid()
      ensures old(autoplayInterval).Some? ==> autoplayInterval == old(autoplayInterval) && timers == old(timers)
      ensures old(autoplayInterval).None? && totalSlides > 1 ==>
                autoplayInterval == Some(old(nextTimerId)) && timers == map[old(nextTimerId) := autoplayDelay]
      ensures totalSlides <= 1 ==> autoplayInterval.None? && timers == map[]
      ensures |timers| <= 1
      ensures currentSlide == old(currentSlide) && isTransitioning == old(isTransitioning)
      ensures autoplayDelay == old(autoplayDelay)
    {
      if totalSlides > 1 && autoplayInterval.None? {
        SetupAutoplay();
      }
      assert timers == map[] || timers.Keys == {autoplayInterval.value};
    }

    /**
     * `setAutoplayDelay(delay)`: stores the delay, and restarts a running
     * interval so that it uses it; a stopped autoplay stays stopped.
     */
    method SetAutoplayDelay(delay: int)
      requires Valid()
      modifies this
      ensures listening == old(listening)
      ensures Valid()
      ensures autoplayDelay == delay
      ensures old(autoplayInterval).None? ==> autoplayInterval.None? && timers == old(timers)
      ensures old(autoplayInterval).Some? ==>
                autoplayInterval == Some(old(nextTimerId)) && timers == map[old(nextTimerId) := delay]
      ensures currentSlide == old(currentSlide) && isTransitioning == old(isTransitioning)
    {
      autoplayDelay := delay;
      if autoplayInterval.Some? {
        PauseAutoplay();
        ResumeAutoplay();
      }
    }

    /** A tick of the autoplay interval `id`: `nextSlide`. */
    method AutoplayTick(id: nat)
      requires Valid() && id in timers
      modifies this, slides, indicators
      ensures listening == old(listening)
      ensures Valid()
      ensures !old(isTransitioning) ==> currentSlide == NextIndex(old(currentSlide), totalSlides)
      ensures old(isTransitioning) ==> currentSlide == old(currentSlide)
      ensures autoplayInterval == old(autoplayInterval) && timers == old(timers)
    {
      var _ := NextSlide();
    }

    /** `visibilitychange`: a hidden page pauses autoplay, a visible one resumes it. */
    method OnVisibilityChange(hidden: bool)
      requires Valid()
      modifies this
      ensures listening == old(listening)
      ensures Valid()
      ensures hidden ==> autoplayInterval.None? && timers == map[]
      ensures !hidden && totalSlides > 1 ==> autoplayInterval.Some? && |timers| == 1
      ensures currentSlide == old(currentSlide) && isTransitioning == old(isTransitioning)
    {
      if hidden {
        PauseAutoplay();
      } else {
        ResumeAutoplay();
      }
    }

    /** `mouseenter` on the carousel: `pauseAutoplay`. */
    method OnMouseEnter()
      requires Valid()
      modifies this
      ensures listening == old(listening)
      ensures Valid()
      ensures autoplayInterval.None? && timers == map[]
      ensures currentSlide == old(currentSlide) && isTransitioning == old(isTransitioning)
    {
      PauseAutoplay();
    }

    /** `mouseleave` on the carousel: `resumeAutoplay`. */
    method OnMouseLeave()
      requires Valid()
      modifies this
      ensures listening == old(listening)
      ensures Valid()
      ensures totalSlides > 1 ==> autoplayInterval.Some? && |timers| == 1
      ensures currentSlide == old(currentSlide) && isTransitioning == old(isTransitioning)
    {
      ResumeAutoplay();
    }

    /**
     * A page event reaching the carousel: handled only while the listeners
     * are attached, otherwise nothing changes.
     */
    method Dispatch(e: PageEvent)
      requires Valid()
      modifies this, slides, indicators
      ensures Valid() && listening == old(listening)
      ensures !listening ==> currentSlide == old(currentSlide) && isTransitioning == old(isTransitioning)
                             && autoplayInterval == old(autoplayInterval) && timers == old(timers)
      ensures listening && e == VisibilityChange(false) && totalSlides > 1 ==> autoplayInterval.Some?
      ensures listening && (e == VisibilityChange(true) || e == MouseEnter) ==> autoplayInterval.None?
      ensures listening && e.IndicatorClick? && !old(isTransitioning) && e.index < totalSlides
              ==> currentSlide == Int(e.index)
    {
      if !listening {
        return;
      }
      match e {
        case PrevClick =>
          var _ := PreviousSlide();
        case NextClick =>
          var _ := NextSlide();
        case IndicatorClick(index) =>
          var _ := GoToSlide(Int(index));
        case KeyDown(key, inViewport) =>
          var _ := OnKeyDown(key, inViewport);
        case MouseEnter =>
          OnMouseEnter();
        case MouseLeave =>
          OnMouseLeave();
        case VisibilityChange(hidden) =>
          OnVisibilityChange(hidden);
        case TouchStartAt(x) =>
          TouchStart(x);
        case TouchEndAt(x) =>
          var _ := TouchEnd(x);
      }
    }

    /**
     * `destroy`: autoplay is paused. Its `removeEventListener` calls name
     * methods rather than the arrow functions that were registered, so the
     * listeners stay attached.
     */
    method Destroy()
      requires Valid()
      modifies this
      ensures Valid()
      ensures autoplayInterval.None? && timers == map[]
      ensures listening == old(listening)
      ensures currentSlide == old(currentSlide) && isTransitioning == old(isTransitioning)
    {
      PauseAutoplay();
    }
  }

  /**
   * With no slides, a keyboard or swipe `nextSlide` is accepted and makes
   * the current slide NaN, since `1 % 0` is NaN and passes the guard.
   */
  method EmptyCarouselGoesNaN() returns (slide: Number)
    ensures slide == NaN
  {
    var c := new CarouselManager(true, 0, 1);
    var accepted := c.NextSlide();
    slide := c.currentSlide;
  }

  /**
   * After `destroy`, the tab becoming visible again restarts autoplay on a
   * carousel with slides, since the listeners are still attached.
   */
  method AutoplayRestartsAfterDestroy() returns (running: bool)
    ensures running
  {
    var c := new CarouselManager(true, 3, 3);
    c.Destroy();
    c.Dispatch(VisibilityChange(false));
    running := c.autoplayInterval.Some?;
  }
}
