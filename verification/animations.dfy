/**
 * Scroll-triggered animations (js/modules/animations.js): a FIFO queue of
 * animation tasks drained by one async loop at a time, the classes an
 * animation adds, and the list of elements the manager looks after.
 *
 * The drain loop awaits `executeAnimation`. A task without a delay awaits
 * nothing but a settled promise, so the loop only yields a microtask
 * turn, which no observer callback or timer can use: such tasks run back
 * to back. A task with a delay awaits a timer, and the loop is suspended
 * until that timer fires. `loops` holds the task each suspended loop waits
 * on, and `ResumeLoop` is the timer firing. The IntersectionObserver is
 * the set `observed` plus the event `Intersecting`.
 */
module Animations {
  import opened Js

  /** An element, by identity. */
  type Elem = nat

  /** `animationClasses`: animation type to CSS class. */
  const AnimationClasses: map<string, string> := map[
    "fadeIn" := "animate-fade-in",
    "slideUp" := "animate-slide-up",
    "slideLeft" := "animate-slide-left",
    "slideRight" := "animate-slide-right",
    "scaleIn" := "animate-scale-in",
    "rotateIn" := "animate-rotate-in"
  ]

  /** `Object.values(animationClasses)` */
  const ClassValues: set<string> := {
    "animate-fade-in", "animate-slide-up", "animate-slide-left",
    "animate-slide-right", "animate-scale-in", "animate-rotate-in"
  }

  const DefaultType := "fadeInUp"
  const DefaultDelay := 0
  const DefaultDuration := 600

  /** What the manager reads and writes on an element. */
  datatype Element = Element(
    inDocument: bool,
    /** The `data-animate`, `data-delay` and `data-duration` attributes. */
    animate: Option<string>,
    delay: Option<string>,
    duration: Option<string>,
    /** Whether the `data-scroll` attribute is present. */
    scroll: bool,
    /** Whether the `data-animated` attribute is present. */
    animated: bool,
    classes: set<string>,
    /** The `--animation-duration` style property. */
    durationStyle: Option<string>)

  datatype Task = Task(element: Elem, animationType: string, delay: int, duration: int)

  /** The timeout `applyAnimation` sets to retire the class `cls` from `element`. */
  datatype Completion = Completion(element: Elem, cls: string)

  /** The document's elements, the observer's targets and the pending completion timeouts. */
  datatype PageState = PageState(elements: map<Elem, Element>, observed: set<Elem>, completions: seq<Completion>)

  /** `isAnimated` */
  predicate IsAnimated(el: Element) {
    el.animated || "animated" in el.classes
  }

  /** `x || d` on the result of `parseInt`: NaN and 0 fall back to `d`. */
  function OrDefault(x: Number, d: int): (r: int)
    ensures x.Int? && x.i != 0 ==> r == x.i
    ensures x.NaN? || x == Int(0) ==> r == d
  {
    if x.Truthy() then x.i else d
  }

  /**
   * The task `triggerAnimation` queues for an element: its `data-animate`
   * or 'fadeInUp', and its parsed `data-delay` and `data-duration`, or 0
   * and 600 when missing, unparsable or zero.
   */
  function TaskFor(e: Elem, el: Element): (t: Task)
    ensures t.element == e && t.animationType != ""
    ensures t.animationType == (if el.animate.Some? && el.animate.value != "" then el.animate.value else DefaultType)
    ensures t.delay == OrDefault(ParseInt(el.delay), DefaultDelay)
    ensures t.duration != 0
    ensures ParseInt(el.duration).Int? && ParseInt(el.duration).i != 0 ==> t.duration == ParseInt(el.duration).i
    ensures ParseInt(el.duration).NaN? || ParseInt(el.duration) == Int(0) ==> t.duration == DefaultDuration
    ensures el.duration.None? ==> t.duration == DefaultDuration
    ensures el.delay.None? ==> t.delay == DefaultDelay
  {
    var animationType := if el.animate.Some? && el.animate.value != "" then el.animate.value else DefaultType;
    Task(e, animationType, OrDefault(ParseInt(el.delay), DefaultDelay), OrDefault(ParseInt(el.duration), DefaultDuration))
  }

  /** The class `applyAnimation` adds: the mapped class for a known type, otherwise the type itself. */
  function ClassFor(animationType: string): (cls: string)
    ensures animationType in AnimationClasses ==> cls == AnimationClasses[animationType]
    ensures animationType !in AnimationClasses ==> cls == animationType
    ensures cls in ClassValues || cls == animationType
  {
    if animationType in AnimationClasses then AnimationClasses[animationType] else animationType
  }

  /** ASCII whitespace, which a class token may not contain. */
  predicate IsAsciiWhiteSpace(c: char) {
    c == '\t' || c == '\n' || c == '\U{C}' || c == '\r' || c == ' '
  }

  /** A token `classList.add` accepts: non-empty and free of ASCII whitespace. */
  predicate ValidToken(t: string) {
    t != "" && forall i :: 0 <= i < |t| ==> !IsAsciiWhiteSpace(t[i])
  }

  datatype ApplyResult = Added(el: Element, cls: string) | Threw(el: Element)

  /**
   * `applyAnimation`: a non-zero duration sets `--animation-duration`;
   * then the animation class and 'animated' are added. An invalid class
   * token makes `classList.add` throw before either class is added.
   */
  function ApplyAnimation(el: Element, animationType: string, duration: int): (r: ApplyResult)
    ensures r.Threw? <==> !ValidToken(ClassFor(animationType))
    ensures r.el.durationStyle == (if duration != 0 then Some(IntToString(duration) + "ms") else el.durationStyle)
    ensures r.Added? ==> r.cls == ClassFor(animationType) && r.el.classes == el.classes + {r.cls, "animated"}
    ensures r.Threw? ==> r.el.classes == el.classes
    ensures r.el.inDocument == el.inDocument && r.el.animate == el.animate && r.el.animated == el.animated
    ensures r.el.delay == el.delay && r.el.duration == el.duration && r.el.scroll == el.scroll
  {
    var styled := if duration != 0 then el.(durationStyle := Some(IntToString(duration) + "ms")) else el;
    var cls := ClassFor(animationType);
    if !ValidToken(cls) then Threw(styled)
    else Added(styled.(classes := styled.classes + {cls, "animated"}), cls)
  }

  /**
   * What `executeAnimation` does once its delay is over: a task whose
   * element is no longer in the document changes nothing; otherwise the
   * animation is applied, and unless that threw, the element is marked
   * `data-animated` and unobserved, and a completion timeout is pending.
   */
  function Execute(p: PageState, t: Task): (r: PageState)
    ensures t.element !in p.elements || !p.elements[t.element].inDocument ==> r == p
    ensures t.element in p.elements ==> t.element in r.elements
    ensures t.element in p.elements && p.elements[t.element].inDocument ==>
              && r.elements == p.elements[t.element := r.elements[t.element]]
              && (ValidToken(ClassFor(t.animationType)) ==>
                    && IsAnimated(r.elements[t.element]) && r.elements[t.element].animated
                    && ClassFor(t.animationType) in r.elements[t.element].classes
                    && r.observed == p.observed - {t.element}
                    && r.completions == p.completions + [Completion(t.element, ClassFor(t.animationType))])
              && (!ValidToken(ClassFor(t.animationType)) ==>
                    && r.elements[t.element].classes == p.elements[t.element].classes
                    && r.elements[t.element].animated == p.elements[t.element].animated
                    && r.observed == p.observed && r.completions == p.completions)
  {
    if t.element !in p.elements || !p.elements[t.element].inDocument then p
    else
      match ApplyAnimation(p.elements[t.element], t.animationType, t.duration)
      case Threw(el) => p.(elements := p.elements[t.element := el])
      case Added(el, cls) =>
        PageState(p.elements[t.element := el.(animated := true)], p.observed - {t.element},
                  p.completions + [Completion(t.element, cls)])
  }

  /**
   * The drain run from `q`: tasks without a delay are executed in order,
   * each whether or not it throws, up to the first task with a delay,
   * where the loop suspends. Returns the page and the rest of the queue,
   * which is empty or starts with the task waited on.
   */
  function RunTasks(p: PageState, q: seq<Task>): (r: (PageState, seq<Task>))
    ensures r.1 == [] || r.1[0].delay > 0
    decreases |q|
  {
    if q == [] then (p, [])
    else if q[0].delay > 0 then (p, q)
    else RunTasks(Execute(p, q[0]), q[1..])
  }

  /**
   * What is left of the queue is a suffix of it, and every task before
   * that suffix had no delay: tasks leave the queue only from the front.
   */
  lemma {:induction false} RunTasksSuffix(p: PageState, q: seq<Task>)
    ensures var rest := RunTasks(p, q).1;
            && |rest| <= |q| && rest == q[|q| - |rest|..]
            && forall i :: 0 <= i < |q| - |rest| ==> q[i].delay <= 0
    decreases |q|
  {
    if q != [] && q[0].delay <= 0 {
      RunTasksSuffix(Execute(p, q[0]), q[1..]);
      var rest := RunTasks(p, q).1;
      assert q[1..][|q[1..]| - |rest|..] == q[|q| - |rest|..];
      assert forall i :: 1 <= i < |q| - |rest| ==> q[i] == q[1..][i - 1];
    }
  }

  /** A task that throws does not stop the drain: the next task runs on the page it left. */
  lemma DrainSurvivesThrow(p: PageState, t: Task, rest: seq<Task>)
    requires t.delay <= 0 && !ValidToken(ClassFor(t.animationType))
    ensures RunTasks(p, [t] + rest) == RunTasks(Execute(p, t), rest)
  {
    assert ([t] + rest)[1..] == rest;
  }

  /** Draining `a + b` runs all of `a` first when none of `a` waits: FIFO order. */
  lemma {:induction false} RunTasksAppend(p: PageState, a: seq<Task>, b: seq<Task>)
    requires forall i :: 0 <= i < |a| ==> a[i].delay <= 0
    ensures RunTasks(p, a + b) == RunTasks(RunAll(p, a), b)
    decreases |a|
  {
    if a != [] {
      assert (a + b)[0] == a[0] && (a + b)[1..] == a[1..] + b;
      RunTasksAppend(Execute(p, a[0]), a[1..], b);
    } else {
      assert a + b == b;
    }
  }

  /** Every task of `q` executed in order. */
  function RunAll(p: PageState, q: seq<Task>): PageState
    decreases |q|
  {
    if q == [] then p else RunAll(Execute(p, q[0]), q[1..])
  }

  /** The selectors `findAnimatedElements` queries. */
  datatype Selector = DataAnimate | AnimationClass | DataScroll

  predicate Matches(el: Element, sel: Selector) {
    el.inDocument &&
    match sel
    case DataAnimate => el.animate.Some?
    case AnimationClass => el.classes * ClassValues != {}
    case DataScroll => el.scroll
  }

  /** `a` is `b` with some elements left out, the rest in their order. */
  predicate Subsequence(a: seq<Elem>, b: seq<Elem>)
    decreases |b|
  {
    a == [] || (b != [] && ((a[0] == b[0] && Subsequence(a[1..], b[1..])) || Subsequence(a, b[1..])))
  }

  /** No element occurs twice. */
  predicate Distinct(s: seq<Elem>) {
    forall i, j :: 0 <= i < j < |s| ==> s[i] != s[j]
  }

  /**
   * `querySelectorAll(sel)`: the matching elements, in document order, each
   * once. `order` is the document order, in which every element occurs once.
   */
  function QueryAll(order: seq<Elem>, elements: map<Elem, Element>, sel: Selector): (r: seq<Elem>)
    ensures forall e :: e in r <==> e in order && e in elements && Matches(elements[e], sel)
    ensures Subsequence(r, order)
    ensures Distinct(order) ==> Distinct(r)
  {
    if order == [] then []
    else
      var rest := QueryAll(order[1..], elements, sel);
      assert forall e :: e in order <==> e == order[0] || e in order[1..];
      if order[0] in elements && Matches(elements[order[0]], sel) then
        var r := [order[0]] + rest;
        assert r[1..] == rest;
        assert Distinct(order) ==> order[0] !in order[1..];
        r
      else rest
  }

  /** `findAnimatedElements`' list: `[data-animate]`, then animation classes, then `[data-scroll]`. */
  function Found(order: seq<Elem>, elements: map<Elem, Element>): seq<Elem> {
    QueryAll(order, elements, DataAnimate) + QueryAll(order, elements, AnimationClass) + QueryAll(order, elements, DataScroll)
  }

  /** An element that has `data-animate` and an animation class is listed twice. */
  lemma FoundMayRepeat(e: Elem, el: Element)
    requires el.inDocument && el.animate.Some? && "animate-fade-in" in el.classes
    ensures Found([e], map[e := el]) == [e, e] + QueryAll([e], map[e := el], DataScroll)
  {
    assert "animate-fade-in" in el.classes * ClassValues;
    assert [e][1..] == [];
    assert QueryAll([e], map[e := el], DataAnimate) == [e];
    assert QueryAll([e], map[e := el], AnimationClass) == [e];
  }

  /** `removeAnimation`'s effect on the element: the attributes and animation classes are gone. */
  function Cleared(el: Element): (r: Element)
    ensures !IsAnimated(r) && r.animate.None? && r.delay.None? && r.duration.None?
    ensures r.classes * ClassValues == {} && r.classes <= el.classes
    ensures r.inDocument == el.inDocument && r.scroll == el.scroll && r.durationStyle == el.durationStyle
  {
    el.(animate := None, delay := None, duration := None, animated := false,
        classes := el.classes - ({"animated", "animation-complete"} + ClassValues))
  }

  /** `indexOf` then `splice(index, 1)`: the first occurrence of `e` is removed, if there is one. */
  function RemoveFirst(s: seq<Elem>, e: Elem): (r: seq<Elem>)
    ensures e !in s ==> r == s
    ensures e in s ==> |r| == |s| - 1 && multiset(r) == multiset(s) - multiset{e}
  {
    if s == [] then []
    else
      assert s == [s[0]] + s[1..];
      if s[0] == e then s[1..]
      else [s[0]] + RemoveFirst(s[1..], e)
  }

  /** The element removed is the first occurrence, at `indexOf`, and the others keep their order. */
  lemma {:induction false} RemoveFirstSplices(s: seq<Elem>, e: Elem)
    requires e in s
    ensures RemoveFirst(s, e) == s[..IndexOf(s, e)] + s[IndexOf(s, e) + 1..]
  {
    if s[0] != e {
      var t := s[1..];
      assert e in t;
      RemoveFirstSplices(t, e);
      SpliceCons(s, IndexOf(t, e));
    }
  }

  /** Cutting index i + 1 out of s is keeping s[0] and cutting index i out of the rest. */
  lemma SpliceCons(s: seq<Elem>, i: nat)
    requires i + 1 < |s|
    ensures s[..i + 1] + s[i + 2..] == [s[0]] + (s[1..][..i] + s[1..][i + 1..])
  {
    assert s[..i + 1] == [s[0]] + s[1..][..i];
  }

  /**
   * The elements `this.animatedElements.forEach(removeAnimation)` visits:
   * `forEach` walks indices below the starting length, reading the array
   * as it is now, while each call splices the visited element out.
   */
  function SplicingForEach(list: seq<Elem>, k: nat, len: nat): seq<Elem>
    decreases len - k
  {
    if k >= len || k >= |list| then []
    else [list[k]] + SplicingForEach(RemoveFirst(list, list[k]), k + 1, len)
  }

  /** One iteration of the splicing `forEach`, seen from the elements it has visited so far. */
  lemma SplicingForEachStep(visited: seq<Elem>, list: seq<Elem>, k: nat, len: nat, all: seq<Elem>)
    requires k < len && visited + SplicingForEach(list, k, len) == all
    ensures k < |list| ==> (visited + [list[k]]) + SplicingForEach(RemoveFirst(list, list[k]), k + 1, len) == all
    ensures k >= |list| ==> visited + SplicingForEach(list, k + 1, len) == all
  {
    if k < |list| {
      var after := SplicingForEach(RemoveFirst(list, list[k]), k + 1, len);
      assert visited + [list[k]] + after == visited + ([list[k]] + after);
    }
  }

  /** Of two different elements, the splicing `forEach` visits only the first. */
  lemma SplicingForEachSkipsSecond(a: Elem, b: Elem)
    requires a != b
    ensures SplicingForEach([a, b], 0, 2) == [a]
  {
    assert RemoveFirst([a, b], a) == [b];
  }

  /** The page after `removeAnimation` on each of `visited`, in order. */
  function ClearAll(elements: map<Elem, Element>, visited: seq<Elem>): (r: map<Elem, Element>)
    ensures r.Keys == elements.Keys
    decreases |visited|
  {
    if visited == [] then elements
    else
      var before := ClearAll(elements, visited[..|visited| - 1]);
      var e := visited[|visited| - 1];
      if e in before then before[e := Cleared(before[e])] else before
  }

  /** Exactly the visited elements are cleaned, however often each was visited. */
  lemma {:induction false} ClearAllValues(elements: map<Elem, Element>, visited: seq<Elem>)
    ensures forall e :: e in elements ==>
              ClearAll(elements, visited)[e] == if e in visited then Cleared(elements[e]) else elements[e]
    decreases |visited|
  {
    if visited != [] {
      var init := visited[..|visited| - 1];
      ClearAllValues(elements, init);
      assert forall e :: e in visited <==> e in init || e == visited[|visited| - 1];
    }
  }

  /** Cleaning one more element extends the cleaned page by that element. */
  lemma ClearAllStep(elements: map<Elem, Element>, visited: seq<Elem>, e: Elem)
    ensures ClearAll(elements, visited + [e]) ==
              if e in elements then ClearAll(elements, visited)[e := Cleared(ClearAll(elements, visited)[e])]
              else ClearAll(elements, visited)
  {
    assert (visited + [e])[..|visited|] == visited;
  }

  class AnimationManager {
    /** Every element of the page, in document order. */
    const order: seq<Elem>

    var page: PageState
    var animationQueue: seq<Task>
    var isProcessingQueue: bool
    /** The task each suspended drain loop is waiting on. */
    var loops: seq<Task>
    var animatedElements: seq<Elem>

    /** A queued task is always being drained. */
    ghost predicate Valid()
      reads this
    {
      !isProcessingQueue ==> animationQueue == []
    }

    /** The situation without `refresh` or `destroy`: one drain loop at most, alive exactly while the flag is set. */
    ghost predicate SingleLoop()
      reads this
    {
      |loops| <= 1 && (isProcessingQueue <==> |loops| == 1)
    }

    /**
     * The state a drain leaves, started from page `p0`, queue `q0`, loops
     * `loops0` and flag `flag0`: the page after `RunTasks`; then either the
     * queue is empty and the flag cleared, or the loop is suspended on the
     * task with a delay and the queue holds the tasks after it.
     */
    ghost predicate Drained(p0: PageState, q0: seq<Task>, loops0: seq<Task>, flag0: bool)
      reads this
    {
      var r := RunTasks(p0, q0);
      && page == r.0
      && (r.1 == [] ==> animationQueue == [] && !isProcessingQueue && loops == loops0)
      && (r.1 != [] ==> animationQueue == r.1[1..] && loops == loops0 + [r.1[0]] && isProcessingQueue == flag0)
    }

    /** After `init`: the observer watches the elements `findAnimatedElements` found. */
    constructor (order: seq<Elem>, elements: map<Elem, Element>)
      ensures Valid() && SingleLoop()
      ensures this.order == order
      ensures page == PageState(elements, set e | e in Found(order, elements), [])
      ensures animatedElements == Found(order, elements)
      ensures animationQueue == [] && !isProcessingQueue && loops == []
    {
      this.order := order;
      page := PageState(elements, {}, []);
      animationQueue := [];
      isProcessingQueue := false;
      loops := [];
      animatedElements := [];
      new;
      FindAnimatedElements();
    }

    /** `findAnimatedElements`: the list is replaced by what the queries find, and each is observed. */
    method FindAnimatedElements()
      modifies this
      ensures animatedElements == Found(order, page.elements)
      ensures page == old(page).(observed := old(page.observed) + set e | e in Found(order, old(page.elements)))
      ensures animationQueue == old(animationQueue) && isProcessingQueue == old(isProcessingQueue) && loops == old(loops)
    {
      animatedElements := Found(order, page.elements);
      page := page.(observed := page.observed + set e | e in animatedElements);
    }

    /**
     * The drain loop of `processAnimationQueue`, from the current queue:
     * it runs until the queue is empty, clearing the flag, or until a task
     * with a delay, where it suspends waiting on that task.
     */
    method Drain()
      modifies this
      ensures Drained(old(page), old(animationQueue), old(loops), old(isProcessingQueue))
      ensures animatedElements == old(animatedElements)
    {
      while animationQueue != []
        invariant RunTasks(page, animationQueue) == RunTasks(old(page), old(animationQueue))
        invariant loops == old(loops) && isProcessingQueue == old(isProcessingQueue)
        invariant animatedElements == old(animatedElements)
        decreases |animationQueue|
      {
        var task := animationQueue[0];
        if task.delay > 0 {
          animationQueue := animationQueue[1..];
          loops := loops + [task];
          return;
        }
        page := Execute(page, task);
        animationQueue := animationQueue[1..];
      }
      isProcessingQueue := false;
    }

    /** `processAnimationQueue`: returns at once while a drain is running or when there is nothing queued. */
    method ProcessAnimationQueue()
      modifies this
      ensures old(isProcessingQueue) || old(animationQueue) == [] ==>
                page == old(page) && animationQueue == old(animationQueue)
                && isProcessingQueue == old(isProcessingQueue) && loops == old(loops)
      ensures !old(isProcessingQueue) && old(animationQueue) != [] ==>
                Drained(old(page), old(animationQueue), old(loops), true)
      ensures animatedElements == old(animatedElements)
    {
      if isProcessingQueue || animationQueue == [] {
        return;
      }
      isProcessingQueue := true;
      Drain();
    }

    /**
     * `triggerAnimation(e)`: exactly one task, built from the element's
     * attributes, joins the tail of the queue, and a drain starts unless
     * one is running.
     */
    method TriggerAnimation(e: Elem)
      requires Valid() && e in page.elements
      modifies this
      ensures Valid()
      ensures old(SingleLoop()) ==> SingleLoop()
      ensures old(isProcessingQueue) ==>
                animationQueue == old(animationQueue) + [TaskFor(e, old(page.elements[e]))]
                && page == old(page) && loops == old(loops) && isProcessingQueue
      ensures !old(isProcessingQueue) ==>
                var r := RunTasks(old(page), [TaskFor(e, old(page.elements[e]))]);
                page == r.0 && loops == old(loops) + r.1 && (isProcessingQueue <==> r.1 != [])
      ensures animatedElements == old(animatedElements)
    {
      var task := TaskFor(e, page.elements[e]);
      animationQueue := animationQueue + [task];
      if !isProcessingQueue {
        assert animationQueue == [task] && [task][1..] == [];
        ProcessAnimationQueue();
      }
    }

    /** The observer reports `e` intersecting: only an observed element is animated. */
    method Intersecting(e: Elem)
      requires Valid()
      modifies this
      ensures Valid()
      ensures old(SingleLoop()) ==> SingleLoop()
      ensures e !in old(page.observed) || e !in old(page.elements) ==>
                page == old(page) && animationQueue == old(animationQueue) && loops == old(loops)
      ensures e in old(page.observed) && e in old(page.elements) && old(isProcessingQueue) ==>
                animationQueue == old(animationQueue) + [TaskFor(e, old(page.elements[e]))]
                && page == old(page) && loops == old(loops) && isProcessingQueue
      ensures e in old(page.observed) && e in old(page.elements) && !old(isProcessingQueue) ==>
                var r := RunTasks(old(page), [TaskFor(e, old(page.elements[e]))]);
                page == r.0 && loops == old(loops) + r.1 && (isProcessingQueue <==> r.1 != [])
      ensures animatedElements == old(animatedElements)
    {
      if e in page.observed && e in page.elements {
        TriggerAnimation(e);
      }
    }

    /**
     * The delay of the task suspended loop `k` waits on is over: the task
     * is executed and that loop drains on from the current queue.
     */
    method ResumeLoop(k: nat)
      requires Valid() && k < |loops|
      modifies this
      ensures Valid()
      ensures old(SingleLoop()) ==> SingleLoop()
      ensures Drained(Execute(old(page), old(loops[k])), old(animationQueue),
                      old(loops[..k] + loops[k + 1..]), old(isProcessingQueue))
      ensures animatedElements == old(animatedElements)
    {
      var task := loops[k];
      loops := loops[..k] + loops[k + 1..];
      page := Execute(page, task);
      Drain();
    }

    /** The completion timeout `k` of `applyAnimation`: an element still in the document swaps its class for 'animation-complete'. */
    method CompleteAnimation(k: nat)
      requires k < |page.completions|
      modifies this
      ensures var c := old(page.completions[k]);
              && page.completions == old(page.completions[..k] + page.completions[k + 1..])
              && page.observed == old(page.observed)
              && (c.element in old(page.elements) && old(page.elements[c.element]).inDocument ==>
                    page.elements == old(page.elements)[c.element :=
                      old(page.elements[c.element]).(classes := old(page.elements[c.element]).classes - {c.cls} + {"animation-complete"})])
              && (c.element !in old(page.elements) || !old(page.elements[c.element]).inDocument ==>
                    page.elements == old(page.elements))
      ensures animationQueue == old(animationQueue) && isProcessingQueue == old(isProcessingQueue)
      ensures loops == old(loops) && animatedElements == old(animatedElements)
    {
      var c := page.completions[k];
      var elements := page.elements;
      if c.element in elements && elements[c.element].inDocument {
        var el := elements[c.element];
        elements := elements[c.element := el.(classes := el.classes - {c.cls} + {"animation-complete"})];
      }
      page := PageState(elements, page.observed, page.completions[..k] + page.completions[k + 1..]);
    }

    /**
     * `addAnimation(e, type, {delay, duration})`: the attributes are
     * written, and the element is listed and observed only if it was not
     * listed already.
     */
    method AddAnimation(e: Elem, animationType: string, delay: int, duration: int)
      requires e in page.elements
      modifies this
      ensures e in animatedElements
      ensures e in old(animatedElements) ==> animatedElements == old(animatedElements) && page.observed == old(page.observed)
      ensures e !in old(animatedElements) ==> animatedElements == old(animatedElements) + [e] && page.observed == old(page.observed) + {e}
      ensures page.elements == old(page.elements)[e := old(page.elements[e]).(
                animate := Some(animationType), delay := Some(IntToString(delay)), duration := Some(IntToString(duration)))]
      ensures page.completions == old(page.completions)
      ensures animationQueue == old(animationQueue) && isProcessingQueue == old(isProcessingQueue) && loops == old(loops)
    {
      var el := page.elements[e];
      var elements := page.elements[e := el.(animate := Some(animationType), delay := Some(IntToString(delay)),
                                             duration := Some(IntToString(duration)))];
      var observed := page.observed;
      if e !in animatedElements {
        animatedElements := animatedElements + [e];
        observed := observed + {e};
      }
      page := PageState(elements, observed, page.completions);
    }

    /**
     * `removeAnimation(e)`: the attributes and animation classes go, one
     * listing of the element is removed if there is one, and it is
     * unobserved.
     */
    method RemoveAnimation(e: Elem)
      modifies this
      ensures page.elements == if e in old(page.elements) then old(page.elements)[e := Cleared(old(page.elements[e]))]
                               else old(page.elements)
      ensures animatedElements == RemoveFirst(old(animatedElements), e)
      ensures page.observed == old(page.observed) - {e} && page.completions == old(page.completions)
      ensures animationQueue == old(animationQueue) && isProcessingQueue == old(isProcessingQueue) && loops == old(loops)
    {
      var elements := page.elements;
      if e in elements {
        elements := elements[e := Cleared(elements[e])];
      }
      animatedElements := RemoveFirst(animatedElements, e);
      page := PageState(elements, page.observed - {e}, page.completions);
    }

    /**
     * `refresh`: the listed elements are unobserved, the queue is emptied,
     * the flag is cleared, and the elements are found again. Loops still
     * suspended on a delay are not stopped.
     */
    method Refresh()
      modifies this
      ensures Valid()
      ensures animationQueue == [] && !isProcessingQueue && loops == old(loops)
      ensures animatedElements == Found(order, old(page.elements))
      ensures page.elements == old(page.elements) && page.completions == old(page.completions)
      ensures page.observed == (old(page.observed) - set e | e in old(animatedElements)) + set e | e in Found(order, old(page.elements))
    {
      page := page.(observed := page.observed - set e | e in animatedElements);
      animatedElements := [];
      animationQueue := [];
      isProcessingQueue := false;
      FindAnimatedElements();
    }

    /**
     * `destroy` as written: the observer is disconnected, the queue emptied
     * and the flag cleared; then `forEach` calls `removeAnimation` on the
     * list while `removeAnimation` splices that same list, so the elements
     * `SplicingForEach` skips keep their attributes and classes.
     */
    method DestroyAsWritten()
      modifies this
      ensures Valid()
      ensures animationQueue == [] && !isProcessingQueue && loops == old(loops)
      ensures page.observed == {} && animatedElements == []
      ensures page.elements == ClearAll(old(page.elements), SplicingForEach(old(animatedElements), 0, |old(animatedElements)|))
      ensures page.completions == old(page.completions)
    {
      page := page.(observed := {});
      animationQueue := [];
      isProcessingQueue := false;
      var len := |animatedElements|;
      ghost var visited: seq<Elem> := [];
      var k := 0;
      while k < len
        invariant k <= len
        invariant visited + SplicingForEach(animatedElements, k, len) == SplicingForEach(old(animatedElements), 0, len)
        invariant page.elements == ClearAll(old(page.elements), visited)
        invariant page.observed == {} && page.completions == old(page.completions)
        invariant animationQueue == [] && !isProcessingQueue && loops == old(loops)
        decreases len - k
      {
        SplicingForEachStep(visited, animatedElements, k, len, SplicingForEach(old(animatedElements), 0, len));
        if k < |animatedElements| {
          var e := animatedElements[k];
          ClearAllStep(old(page.elements), visited, e);
          visited := visited + [e];
          RemoveAnimation(e);
        }
        k := k + 1;
      }
      assert SplicingForEach(animatedElements, k, len) == [];
      assert visited == SplicingForEach(old(animatedElements), 0, len);
      animatedElements := [];
    }

    /** `destroy` as intended: every listed element is cleaned up, by walking a copy of the list. */
    method Destroy()
      modifies this
      ensures Valid()
      ensures animationQueue == [] && !isProcessingQueue && loops == old(loops)
      ensures page.observed == {} && animatedElements == []
      ensures page.elements == ClearAll(old(page.elements), old(animatedElements))
      ensures forall e :: e in page.elements ==>
                page.elements[e] == if e in old(animatedElements) then Cleared(old(page.elements[e])) else old(page.elements[e])
      ensures page.completions == old(page.completions)
    {
      page := page.(observed := {});
      animationQueue := [];
      isProcessingQueue := false;
      var snapshot := animatedElements;
      var k := 0;
      while k < |snapshot|
        invariant k <= |snapshot|
        invariant page.elements == ClearAll(old(page.elements), snapshot[..k])
        invariant page.observed == {} && page.completions == old(page.completions)
        invariant animationQueue == [] && !isProcessingQueue && loops == old(loops)
      {
        ClearAllStep(old(page.elements), snapshot[..k], snapshot[k]);
        assert snapshot[..k + 1] == snapshot[..k] + [snapshot[k]];
        RemoveAnimation(snapshot[k]);
        k := k + 1;
      }
      assert snapshot[..k] == snapshot;
      ClearAllValues(old(page.elements), snapshot);
      animatedElements := [];
    }
  }

  /**
   * The attributes `addAnimation` writes read back as the same task: the
   * type, the delay, and the duration unless it is 0, which reads as 600.
   */
  lemma AddedAttributesReadBack(e: Elem, el: Element, animationType: string, delay: int, duration: int)
    requires animationType != ""
    requires -MaxSafeInteger <= delay <= MaxSafeInteger && -MaxSafeInteger <= duration <= MaxSafeInteger
    ensures TaskFor(e, el.(animate := Some(animationType), delay := Some(IntToString(delay)),
                           duration := Some(IntToString(duration))))
            == Task(e, animationType, delay, if duration != 0 then duration else DefaultDuration)
  {
    ParseIntOfString(delay);
    ParseIntOfString(duration);
  }

  /** Two elements, both with `data-animate`, already animated, in document order. */
  function TwoAnimatedElements(): map<Elem, Element> {
    var el := Element(true, Some("fadeIn"), None, None, false, true, {}, None);
    map[0 := el, 1 := el]
  }

  lemma FoundTwo()
    ensures Found([0, 1], TwoAnimatedElements()) == [0, 1]
  {
    var m := TwoAnimatedElements();
    assert [0, 1][1..] == [1] && [1][1..] == [];
    assert QueryAll([1], m, DataAnimate) == [1];
    assert QueryAll([0, 1], m, DataAnimate) == [0, 1];
    assert QueryAll([1], m, AnimationClass) == [];
    assert QueryAll([0, 1], m, AnimationClass) == [];
    assert QueryAll([1], m, DataScroll) == [];
    assert QueryAll([0, 1], m, DataScroll) == [];
  }

  /** `destroy` as written cleans the first of two listed elements and leaves the second animated. */
  method DestroyAsWrittenSkipsSecond() returns (first: Element, second: Element)
    ensures !IsAnimated(first) && first.animate.None?
    ensures IsAnimated(second) && second.animate == Some("fadeIn")
  {
    FoundTwo();
    var m := new AnimationManager([0, 1], TwoAnimatedElements());
    m.DestroyAsWritten();
    SplicingForEachSkipsSecond(0, 1);
    ClearAllValues(TwoAnimatedElements(), [0]);
    first, second := m.page.elements[0], m.page.elements[1];
  }

  /** `Destroy` cleans both. */
  method DestroyCleansBoth() returns (first: Element, second: Element)
    ensures !IsAnimated(first) && first.animate.None?
    ensures !IsAnimated(second) && second.animate.None?
  {
    FoundTwo();
    var m := new AnimationManager([0, 1], TwoAnimatedElements());
    m.Destroy();
    first, second := m.page.elements[0], m.page.elements[1];
  }

  /**
   * A drain suspended on a delay survives `refresh`, which clears the
   * flag, so the next trigger starts a second drain loop beside it.
   */
  method SecondLoopAfterRefresh() returns (liveLoops: nat)
    ensures liveLoops == 2
  {
    var el := Element(true, Some("fadeIn"), Some(IntToString(500)), None, false, false, {}, None);
    ParseIntOfString(500);
    var m := new AnimationManager([], map[0 := el]);
    m.TriggerAnimation(0);
    assert m.loops == [TaskFor(0, el)];
    m.Refresh();
    m.TriggerAnimation(0);
    liveLoops := |m.loops|;
  }
}
