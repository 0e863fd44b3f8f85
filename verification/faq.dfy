/**
 * The FAQ accordion (js/modules/faq.js): `<details class="faq">` elements
 * whose `open` flags the manager updates in place so that opening one
 * closes the others, and the `--content-height` style it sets on each
 * answer after measuring it open.
 */
module Faq {
  import opened Js

  /**
   * The indices `j < |open|` other than `x` whose element is open, in
   * document order: the elements `closeOtherFAQs(x)` writes.
   */
  function OpenOthers(open: seq<bool>, x: nat): (r: seq<nat>)
    ensures |r| <= |open|
    ensures forall k :: 0 <= k < |r| ==> r[k] < |open|
  {
    if open == [] then []
    else
      var n := |open| - 1;
      OpenOthers(open[..n], x) + (if open[n] && n != x then [n] else [])
  }

  /**
   * The written indices are exactly the open elements other than `x`,
   * each once and in increasing order: a closed element is never written.
   */
  lemma {:induction false} OpenOthersExact(open: seq<bool>, x: nat)
    ensures forall j :: j in OpenOthers(open, x) <==> 0 <= j < |open| && open[j] && j != x
    ensures forall k, l :: 0 <= k < l < |OpenOthers(open, x)| ==> OpenOthers(open, x)[k] < OpenOthers(open, x)[l]
  {
    if open != [] {
      var n := |open| - 1;
      OpenOthersExact(open[..n], x);
      assert forall j :: 0 <= j < n ==> open[..n][j] == open[j];
    }
  }

  /** The value `setupFAQAnimation` gives `--content-height`: `${h}px`. */
  function HeightStyle(h: nat): (r: string)
    ensures |r| > 2 && r[|r| - 2..] == "px"
  {
    NatToString(h) + "px"
  }

  class FAQManager {
    /** `faq.open` of each `.faq` element, in document order. */
    const open: array<bool>
    /** Whether each element has a `.faq__answer`, and that answer's `scrollHeight` while open. */
    const hasAnswer: seq<bool>
    const openHeights: seq<nat>
    /** Each answer's `--content-height` style. */
    const contentHeight: array<Option<string>>
    /** The elements whose `open` has been assigned by `closeOtherFAQs`, in order. */
    var writes: seq<nat>

    predicate Valid()
      reads this
    {
      |hasAnswer| == open.Length == |openHeights| == contentHeight.Length
    }

    /** At most one FAQ element is open. */
    predicate AtMostOneOpen()
      reads this, open
    {
      forall j, k :: 0 <= j < open.Length && 0 <= k < open.Length && open[j] && open[k] ==> j == k
    }

    /**
     * `new FAQManager()`: every element with an answer gets its measured
     * height as `--content-height`, and every `open` flag is as it was.
     */
    constructor (open: array<bool>, hasAnswer: seq<bool>, openHeights: seq<nat>, contentHeight: array<Option<string>>)
      requires |hasAnswer| == open.Length == |openHeights| == contentHeight.Length
      modifies open, contentHeight
      ensures this.open == open && this.contentHeight == contentHeight
      ensures this.hasAnswer == hasAnswer && this.openHeights == openHeights
      ensures Valid() && writes == []
      ensures open[..] == old(open[..])
      ensures forall j :: 0 <= j < contentHeight.Length ==>
                contentHeight[j] == if hasAnswer[j] then Some(HeightStyle(openHeights[j])) else old(contentHeight[j])
    {
      this.open := open;
      this.hasAnswer := hasAnswer;
      this.openHeights := openHeights;
      this.contentHeight := contentHeight;
      writes := [];
      new;
      for i := 0 to open.Length
        invariant open[..] == old(open[..]) && writes == []
        invariant forall j :: 0 <= j < i ==>
                    contentHeight[j] == if hasAnswer[j] then Some(HeightStyle(openHeights[j])) else old(contentHeight[j])
        invariant forall j :: i <= j < contentHeight.Length ==> contentHeight[j] == old(contentHeight[j])
      {
        if hasAnswer[i] {
          SetupFAQAnimation(i);
        }
      }
    }

    /**
     * `setupFAQAnimation(faq, answer)`: opens the element to measure its
     * answer, restores the element's original `open` state and records
     * the height.
     */
    method SetupFAQAnimation(i: nat)
      requires Valid() && i < open.Length
      modifies open, contentHeight
      ensures open[..] == old(open[..])
      ensures contentHeight[..] == old(contentHeight[..])[i := Some(HeightStyle(openHeights[i]))]
    {
      var wasOpen := open[i];
      open[i] := true;
      var h := openHeights[i];
      open[i] := wasOpen;
      contentHeight[i] := Some(HeightStyle(h));
    }

    /**
     * `closeOtherFAQs(x)`: every other element ends closed, `x` keeps its
     * state, and only the elements that were open are written.
     */
    method CloseOtherFAQs(x: nat)
      modifies this, open
      ensures forall j :: 0 <= j < open.Length && j != x ==> !open[j]
      ensures x < open.Length ==> open[x] == old(open[x])
      ensures writes == old(writes) + OpenOthers(old(open[..]), x)
    {
      ghost var o := open[..];
      var i := 0;
      while i < open.Length
        invariant 0 <= i <= open.Length
        invariant forall j :: 0 <= j < i ==> open[j] == (o[j] && j == x)
        invariant forall j :: i <= j < open.Length ==> open[j] == o[j]
        invariant writes == old(writes) + OpenOthers(o[..i], x)
      {
        assert o[..i + 1][..i] == o[..i];
        if i != x && open[i] {
          open[i] := false;
          writes := writes + [i];
        }
        i := i + 1;
      }
      assert o[..open.Length] == o;
    }

    /**
     * A click on element `i`'s summary: the browser flips `open`, then the
     * `toggle` listener closes the others if `i` is now open. Afterwards
     * at most one element is open whenever `i` opened or at most one was
     * open before. The `toggle` events fired by the elements it closes
     * find them closed and do nothing.
     */
    method UserToggles(i: nat)
      requires i < open.Length
      modifies this, open
      ensures open[i] == !old(open[i])
      ensures open[i] ==> forall j :: 0 <= j < open.Length && j != i ==> !open[j]
      ensures !open[i] ==> forall j :: 0 <= j < open.Length && j != i ==> open[j] == old(open[j])
      ensures open[i] || old(AtMostOneOpen()) ==> AtMostOneOpen()
      ensures writes == old(writes) + if open[i] then OpenOthers(old(open[..])[i := true], i) else []
    {
      ghost var o := open[..];
      open[i] := !open[i];
      assert open[i] ==> open[..] == o[i := true];
      if open[i] {
        CloseOtherFAQs(i);
      }
    }
  }

  /** The two `closeOtherFAQs` calls of the scenario below, worked out. */
  lemma OpenOthersOfThree()
    ensures OpenOthers([true, false, false], 0) == []
    ensures OpenOthers([true, false, true], 2) == [0]
  {
    assert [true, false, false][..2] == [true, false] && [true, false][..1] == [true] && [true][..0] == [];
    assert [true, false, true][..2] == [true, false];
  }

  /**
   * Three closed questions: opening the first and then the third leaves
   * only the third open, and the second click writes only the first.
   */
  method OpenFirstThenThird() returns (state: seq<bool>, written: seq<nat>)
    ensures state == [false, false, true] && written == [0]
  {
    var open := new bool[3](_ => false);
    var heights := new Option<string>[3](_ => None);
    var m := new FAQManager(open, [true, true, true], [40, 80, 120], heights);
    OpenOthersOfThree();
    assert open[..] == [false, false, false];
    m.UserToggles(0);
    assert open[0] && !open[1] && !open[2];
    assert m.writes == [] + OpenOthers([false, false, false][0 := true], 0);
    assert [false, false, false][0 := true] == [true, false, false];
    assert m.writes == [];
    assert open[..] == [true, false, false];
    m.UserToggles(2);
    assert open[2] && !open[0] && !open[1];
    assert [true, false, false][2 := true] == [true, false, true];
    assert m.writes == [0];
    state, written := open[..], m.writes;
    assert state == [false, false, true];
  }
}
