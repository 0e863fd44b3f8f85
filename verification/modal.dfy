/**
 * The testimonial review modal (js/modules/modal.js): an index into the
 * original testimonial cards that wraps around, open/closed flags, and the
 * body scroll lock.
 *
 * Indices are JavaScript numbers: with no cards every `% 0` is NaN, and a
 * dividend below `-n` leaves a negative remainder. In both cases the card
 * looked up is `undefined` and reading it throws a TypeError after
 * `currentIndex` has already been written; `OpenAt` reports that as
 * `threw`.
 */
module Modal {
  import opened Js
  import opened Dom

  /** The parts of a testimonial card the modal reads. */
  datatype Quote = Quote(dataFull: Option<string>, text: string)
  datatype Card = Card(name: Option<string>, quote: Option<Quote>)

  /**
   * `short?.getAttribute('data-full') || short?.textContent || ''`: the
   * first non-empty of the full text and the shown text.
   */
  function FullText(card: Card): (r: string)
    ensures card.quote.None? ==> r == ""
    ensures card.quote.Some? && card.quote.value.dataFull.Some? && card.quote.value.dataFull.value != ""
            ==> r == card.quote.value.dataFull.value
    ensures r == "" || (card.quote.Some? && (Some(r) == card.quote.value.dataFull || r == card.quote.value.text))
  {
    match card.quote
    case None => ""
    case Some(q) =>
      if q.dataFull.Some? && q.dataFull.value != "" then q.dataFull.value
      else q.text
  }

  /** `x % n` on a JavaScript number. */
  function NumRem(x: Number, n: nat): Number {
    match x
    case NaN => NaN
    case Int(i) => Rem(i, n)
  }

  /** `openAt`'s index: `(index + n) % n`. */
  function Wrap(index: Number, n: nat): (r: Number)
    ensures n == 0 ==> r == NaN
  {
    NumRem(index.Plus(n), n)
  }

  /** For `n > 0`, every index from `-n` up wraps into `[0, n)`, namely to `(i + n) mod n`. */
  lemma WrapInRange(i: int, n: nat)
    requires n > 0 && i + n >= 0
    ensures Wrap(Int(i), n) == Int((i + n) % n)
    ensures 0 <= (i + n) % n < n
  {
  }

  /** A position inside `[0, n)` wraps to itself: card `i` opens at `i`. */
  lemma WrapFixesPositions(i: int, n: nat)
    requires 0 <= i < n
    ensures Wrap(Int(i), n) == Int(i)
  {
    ModUnique(i + n, 1, i, n);
  }

  /** Below `-n`, a dividend that is not a multiple of `n` leaves a negative remainder. */
  lemma WrapNegative(i: int, n: nat)
    requires n > 0 && i + n < 0 && (-(i + n)) % n != 0
    ensures Wrap(Int(i), n).Int? && Wrap(Int(i), n).i < 0
  {
  }

  /** `navigate(direction)`'s target: `(currentIndex + direction + n) % n`. */
  function NavigateTarget(current: Number, direction: int, n: nat): Number {
    NumRem(current.Plus(direction).Plus(n), n)
  }

  /** The index `navigate(direction)` ends at, after `openAt` wraps the target once more. */
  function Navigated(current: Number, direction: int, n: nat): (r: Number)
    ensures n > 0 && current.Int? && 0 <= current.i < n && 0 <= direction + n && direction <= n ==> r.Int? && 0 <= r.i < n
  {
    var t := NavigateTarget(current, direction, n);
    if n > 0 && current.Int? && 0 <= current.i < n && 0 <= direction + n && direction <= n then
      assert t == Int((current.i + direction + n) % n);
      WrapInRange(t.i, n);
      Wrap(t, n)
    else
      Wrap(t, n)
  }

  /** From a position in range, a step of `d` lands on `(c + d) mod n`. */
  lemma NavigatedStep(c: int, d: int, n: nat)
    requires 0 <= c < n && 0 <= d + n && d <= n
    ensures Navigated(Int(c), d, n) == Int((c + d + n) % n)
  {
    var t := (c + d + n) % n;
    assert NavigateTarget(Int(c), d, n) == Int(t);
    WrapFixesPositions(t, n);
  }

  /** `navigate(1)` then `navigate(-1)` come back to the same card, and so do `navigate(-1)` then `navigate(1)`. */
  lemma NavigateInverse(c: int, n: nat)
    requires 0 <= c < n
    ensures Navigated(Navigated(Int(c), 1, n), -1, n) == Int(c)
    ensures Navigated(Navigated(Int(c), -1, n), 1, n) == Int(c)
  {
    NextThenBack(c, n);
    BackThenNext(c, n);
  }

  lemma NextThenBack(c: int, n: nat)
    requires 0 <= c < n
    ensures Navigated(Navigated(Int(c), 1, n), -1, n) == Int(c)
  {
    NavigatedStep(c, 1, n);
    var next := if c + 1 < n then c + 1 else 0;
    if c + 1 < n {
      ModUnique(c + 1 + n, 1, c + 1, n);
    } else {
      ModUnique(c + 1 + n, 2, 0, n);
    }
    assert Navigated(Int(c), 1, n) == Int(next);
    NavigatedStep(next, -1, n);
    if c + 1 < n {
      ModUnique(c + n, 1, c, n);
    } else {
      ModUnique(n - 1, 0, c, n);
    }
  }

  lemma BackThenNext(c: int, n: nat)
    requires 0 <= c < n
    ensures Navigated(Navigated(Int(c), -1, n), 1, n) == Int(c)
  {
    NavigatedStep(c, -1, n);
    var back := if c > 0 then c - 1 else n - 1;
    if c > 0 {
      ModUnique(c - 1 + n, 1, c - 1, n);
    } else {
      ModUnique(n - 1, 0, n - 1, n);
    }
    assert Navigated(Int(c), -1, n) == Int(back);
    NavigatedStep(back, 1, n);
    if c > 0 {
      ModUnique(c + n, 1, c, n);
    } else {
      ModUnique(2 * n, 2, 0, n);
    }
  }

  /** The modal, once `#reviewModal` is on the page and its listeners are bound. */
  class ModalManager {
    /** `originalTestimonials` */
    const cards: seq<Card>
    /** Whether `#reviewTitle` and `.modal__quote` exist inside the modal. */
    const hasNameEl: bool
    const hasQuoteEl: bool
    const body: Body

    var currentIndex: Number
    var isOpen: bool
    /** The modal's `aria-hidden` attribute. */
    var ariaHidden: Option<string>
    var nameText: string
    var quoteText: string

    constructor (cards: seq<Card>, hasNameEl: bool, hasQuoteEl: bool, body: Body, ariaHidden: Option<string>)
      ensures this.cards == cards && this.hasNameEl == hasNameEl && this.hasQuoteEl == hasQuoteEl
      ensures this.body == body && this.ariaHidden == ariaHidden
      ensures currentIndex == Int(-1) && !isOpen
      ensures nameText == "" && quoteText == ""
    {
      this.cards := cards;
      this.hasNameEl := hasNameEl;
      this.hasQuoteEl := hasQuoteEl;
      this.body := body;
      this.ariaHidden := ariaHidden;
      currentIndex := Int(-1);
      isOpen := false;
      nameText := "";
      quoteText := "";
    }

    /**
     * `openAt(index)`: `currentIndex` becomes `(index + n) % n`. When that
     * names a card, its name and full text are shown (each only where the
     * modal has the element and, for the name, the card has one), the
     * modal is shown and the body scroll is locked; otherwise reading the
     * missing card throws and nothing else changes.
     */
    method OpenAt(index: Number) returns (threw: bool)
      modifies this, body
      ensures currentIndex == Wrap(index, |cards|)
      ensures threw <==> !(currentIndex.Int? && 0 <= currentIndex.i < |cards|)
      ensures threw ==> isOpen == old(isOpen) && ariaHidden == old(ariaHidden) && body.overflow == old(body.overflow)
                        && nameText == old(nameText) && quoteText == old(quoteText)
      ensures !threw ==> isOpen && ariaHidden == Some("false") && body.overflow == "hidden"
      ensures !threw ==> var card := cards[currentIndex.i];
                         && nameText == (if hasNameEl && card.name.Some? then card.name.value else old(nameText))
                         && quoteText == (if hasQuoteEl then FullText(card) else old(quoteText))
    {
      var n := |cards|;
      currentIndex := Wrap(index, n);
      if !(currentIndex.Int? && 0 <= currentIndex.i < n) {
        return true;
      }
      var card := cards[currentIndex.i];
      if hasNameEl && card.name.Some? {
        nameText := card.name.value;
      }
      if hasQuoteEl {
        quoteText := FullText(card);
      }
      ariaHidden := Some("false");
      isOpen := true;
      body.overflow := "hidden";
      return false;
    }

    /** `close`: hides the modal and unlocks the body; the index is kept. */
    method Close()
      modifies this, body
      ensures !isOpen && ariaHidden == Some("true") && body.overflow == ""
      ensures currentIndex == old(currentIndex)
      ensures nameText == old(nameText) && quoteText == old(quoteText)
    {
      ariaHidden := Some("true");
      isOpen := false;
      body.overflow := "";
    }

    /** `navigate(direction)`: reopens at `(currentIndex + direction + n) % n`. */
    method Navigate(direction: int) returns (threw: bool)
      modifies this, body
      ensures currentIndex == Navigated(old(currentIndex), direction, |cards|)
      ensures threw <==> !(currentIndex.Int? && 0 <= currentIndex.i < |cards|)
      ensures !threw ==> isOpen && ariaHidden == Some("false") && body.overflow == "hidden"
      ensures threw ==> isOpen == old(isOpen) && body.overflow == old(body.overflow)
    {
      threw := OpenAt(NavigateTarget(currentIndex, direction, |cards|));
    }

    /** A click, Enter or Space on card `i`: `openAt(i)`, which always succeeds. */
    method ActivateCard(i: nat) returns (threw: bool)
      requires i < |cards|
      modifies this, body
      ensures !threw && currentIndex == Int(i)
      ensures isOpen && ariaHidden == Some("false") && body.overflow == "hidden"
    {
      WrapFixesPositions(i, |cards|);
      threw := OpenAt(Int(i));
    }

    /** `keydown` on the document: Escape closes the modal, and only when it is open. */
    method OnKeyDown(key: string)
      modifies this, body
      ensures key == "Escape" && old(isOpen) ==> !isOpen && ariaHidden == Some("true") && body.overflow == ""
      ensures !(key == "Escape" && old(isOpen)) ==>
                isOpen == old(isOpen) && ariaHidden == old(ariaHidden) && body.overflow == old(body.overflow)
      ensures currentIndex == old(currentIndex)
    {
      if key == "Escape" && isOpen {
        Close();
      }
    }
  }

  /** With a card open, the next and then the previous button come back to it, with the modal still open. */
  method NextThenPrevious(cards: seq<Card>, i: nat) returns (index: Number, open: bool)
    requires i < |cards|
    ensures index == Int(i) && open
  {
    var body := new Body("");
    var m := new ModalManager(cards, true, true, body, Some("true"));
    var _ := m.ActivateCard(i);
    NavigateInverse(i, |cards|);
    var _ := m.Navigate(1);
    var _ := m.Navigate(-1);
    index, open := m.currentIndex, m.isOpen;
  }
}
