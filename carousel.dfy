/** The screenshot carousel: a page index moved by the prev/next buttons, by a swipe on
    the track and by the global arrow keys, and the track offset and button states
    painted from it. Three items are visible at a time, 8 px apart. */
module Carousel {

  const ItemsToShow: nat := 3
  const Gap: nat := 8
  const DefaultItemWidth: nat := 300
  const SwipeThreshold: nat := 50

  /** The elements the carousel code looks up once, when the script loads. */
  datatype Page = Page(itemCount: nat, hasTrack: bool, hasPrev: bool, hasNext: bool)

  /** What the painting writes: the track's horizontal offset in px and the
      disabled flags of the two buttons. */
  datatype View = View(offset: int, prevDisabled: bool, nextDisabled: bool)

  /** The last index at which the visible window still starts: the window at
      `m` shows the last item, and is full whenever there are enough items. */
  function MaxIndex(itemCount: nat): (m: nat)
    ensures itemCount <= m + ItemsToShow
    ensures itemCount >= ItemsToShow ==> m + ItemsToShow <= itemCount
    ensures m == 0 || m + ItemsToShow == itemCount
  {
    if itemCount > ItemsToShow then itemCount - ItemsToShow else 0
  }

  ghost predicate InRange(i: int, itemCount: nat) {
    0 <= i <= MaxIndex(itemCount)
  }

  /** The width of one item: the first item's measured width, or 300 when there is
      no item or it measures 0. */
  function ItemWidth(itemCount: nat, measured: nat): (w: nat)
    ensures w > 0
    ensures itemCount > 0 && measured > 0 ==> w == measured
    ensures itemCount == 0 || measured == 0 ==> w == DefaultItemWidth
    ensures w != measured ==> w == DefaultItemWidth
  {
    if itemCount > 0 && measured > 0 then measured else DefaultItemWidth
  }

  /** The track offset of page `index`: one item width plus one gap per page to the
      left, so the first page sits at 0 and every later page further left. */
  function TranslateX(index: int, itemWidth: nat): (x: int)
    ensures x == 0 <==> index == 0
    ensures index > 0 ==> x <= -(index * Gap)
  {
    var step := itemWidth + Gap;
    assert index > 0 ==> index * step >= index * Gap;
    -(index * step)
  }

  /** The track never moves right of the first page nor left of the last one, and each
      later page sits strictly further left. */
  lemma {:induction false} TranslateBounds(i: int, j: int, itemCount: nat, itemWidth: nat)
    requires InRange(i, itemCount) && InRange(j, itemCount) && itemWidth > 0
    ensures -(MaxIndex(itemCount) * (itemWidth + Gap)) <= TranslateX(i, itemWidth) <= 0
    ensures TranslateX(i, itemWidth) == 0 <==> i == 0
    ensures i < j ==> TranslateX(j, itemWidth) < TranslateX(i, itemWidth)
  {
    var step := itemWidth + Gap;
    var m := MaxIndex(itemCount);
    assert (m - i) * step >= 0;
    assert m * step - i * step == (m - i) * step;
    if i < j {
      assert j * step - i * step == (j - i) * step;
      assert (j - i) * step > 0;
    }
    if i > 0 {
      assert i * step > 0;
    }
  }

  /** updateCarousel: with a track, paint the offset of page `index` at the item width
      measured now; set each button that exists disabled exactly at its end of the
      range. Without a track nothing is painted. */
  function Paint(v: View, page: Page, index: int, measured: nat): (r: View)
    ensures !page.hasTrack ==> r == v
    ensures page.hasTrack && InRange(index, page.itemCount) ==>
      -(MaxIndex(page.itemCount) * (ItemWidth(page.itemCount, measured) + Gap)) <= r.offset <= 0
    ensures page.hasTrack && page.hasPrev ==> (r.prevDisabled <==> index == 0)
    ensures page.hasTrack && page.hasNext ==> (r.nextDisabled <==> index >= MaxIndex(page.itemCount))
    ensures !page.hasPrev ==> r.prevDisabled == v.prevDisabled
    ensures !page.hasNext ==> r.nextDisabled == v.nextDisabled
  {
    if !page.hasTrack then v
    else
      var w := ItemWidth(page.itemCount, measured);
      assert InRange(index, page.itemCount) ==>
        -(MaxIndex(page.itemCount) * (w + Gap)) <= TranslateX(index, w) <= 0 by {
        if InRange(index, page.itemCount) { TranslateBounds(index, index, page.itemCount, w); }
      }
      View(TranslateX(index, w),
           if page.hasPrev then index == 0 else v.prevDisabled,
           if page.hasNext then index >= MaxIndex(page.itemCount) else v.nextDisabled)
  }

  /** The next action: one page on, unless the last page is showing. */
  function NextIndex(i: int, itemCount: nat): (j: int)
    ensures j == i + 1 <==> i < MaxIndex(itemCount)
    ensures j == i <==> i >= MaxIndex(itemCount)
    ensures InRange(i, itemCount) ==> InRange(j, itemCount)
  {
    if i < MaxIndex(itemCount) then i + 1 else i
  }

  /** The prev action: one page back, unless the first page is showing. */
  function PrevIndex(i: int): (j: int)
    ensures j == i - 1 <==> i > 0
    ensures j == i <==> i <= 0
    ensures forall n: nat :: InRange(i, n) ==> InRange(j, n)
  {
    if i > 0 then i - 1 else i
  }

  /** handleSwipe: a horizontal travel of more than 50 px, measured from touch start
      to touch end, acts as next (finger moved left) or prev (finger moved right);
      anything within 50 px either way changes nothing. */
  function SwipeIndex(i: int, itemCount: nat, startX: int, endX: int): (j: int)
    ensures -(SwipeThreshold as int) <= startX - endX <= SwipeThreshold ==> j == i
    ensures startX - endX > SwipeThreshold ==> j == NextIndex(i, itemCount)
    ensures startX - endX < -(SwipeThreshold as int) ==> j == PrevIndex(i)
  {
    var diff := startX - endX;
    var magnitude := if diff < 0 then -diff else diff;
    if magnitude > SwipeThreshold then
      if diff > 0 then NextIndex(i, itemCount) else PrevIndex(i)
    else i
  }

  /** One user input that the carousel listens to. */
  datatype Input =
    | PrevClick
    | NextClick
    | Swipe(startX: int, endX: int)
    | Key(key: string)

  /** The new index after one input. A click reaches a handler only when its button
      exists, a swipe only when the track exists; ArrowLeft and ArrowRight click the
      corresponding button when it exists. */
  function Apply(page: Page, i: int, input: Input): (j: int)
    ensures InRange(i, page.itemCount) ==> InRange(j, page.itemCount)
    ensures i - 1 <= j <= i + 1
  {
    match input
    case PrevClick => if page.hasPrev then PrevIndex(i) else i
    case NextClick => if page.hasNext then NextIndex(i, page.itemCount) else i
    case Swipe(startX, endX) =>
      if page.hasTrack then SwipeIndex(i, page.itemCount, startX, endX) else i
    case Key(key) =>
      if key == "ArrowLeft" && page.hasPrev then PrevIndex(i)
      else if key == "ArrowRight" && page.hasNext then NextIndex(i, page.itemCount)
      else i
  }

  /** The index after a sequence of inputs. */
  function Navigate(page: Page, i: int, inputs: seq<Input>): int
    decreases |inputs|
  {
    if inputs == [] then i else Navigate(page, Apply(page, i, inputs[0]), inputs[1..])
  }

  /** Every path of inputs keeps the index in [0, MaxIndex]. */
  lemma {:induction false} NavigateStaysInRange(page: Page, i: int, inputs: seq<Input>)
    requires InRange(i, page.itemCount)
    ensures InRange(Navigate(page, i, inputs), page.itemCount)
    decreases |inputs|
  {
    if inputs != [] {
      NavigateStaysInRange(page, Apply(page, i, inputs[0]), inputs[1..]);
    }
  }

  /** With three items or fewer the carousel never leaves its first page. */
  lemma {:induction false} SmallCarouselStaysPut(page: Page, inputs: seq<Input>)
    requires page.itemCount <= ItemsToShow
    ensures Navigate(page, 0, inputs) == 0
  {
    NavigateStaysInRange(page, 0, inputs);
  }

  /** The index moves by at most one page per input. */
  lemma {:induction false} NavigateMovesSlowly(page: Page, i: int, inputs: seq<Input>)
    ensures i - |inputs| <= Navigate(page, i, inputs) <= i + |inputs|
    decreases |inputs|
  {
    if inputs != [] {
      NavigateMovesSlowly(page, Apply(page, i, inputs[0]), inputs[1..]);
    }
  }

  /** Pressing next `k` times from page `i` reaches page min(i + k, MaxIndex):
      every page is reachable and the last one is where the carousel stops. */
  lemma {:induction false} NextClicksReach(page: Page, i: int, k: nat)
    requires page.hasNext && InRange(i, page.itemCount)
    ensures var m := MaxIndex(page.itemCount);
      Navigate(page, i, seq(k, _ => NextClick)) == if i + k <= m then i + k else m
    decreases k
  {
    var clicks := seq(k, _ => NextClick);
    if k > 0 {
      assert clicks[0] == NextClick;
      assert clicks[1..] == seq(k - 1, _ => NextClick);
      NextClicksReach(page, NextIndex(i, page.itemCount), k - 1);
    }
  }

  /** The carousel as the script holds it: the page index, the last touch-start and
      touch-end x coordinates, and what was last painted. */
  class CarouselController {
    const page: Page
    var currentIndex: int
    var touchStartX: int
    var touchEndX: int
    var view: View
    /** Whether updateCarousel has painted at least once, and the item width it used. */
    ghost var painted: bool
    ghost var paintedWidth: nat

    /** The index stays in range; before the first painting the view is the one the
        page loaded with; a button that does not exist is never disabled. */
    ghost predicate Sound()
      reads this
    {
      && InRange(currentIndex, page.itemCount)
      && (!painted ==> view == View(0, false, false))
      && (painted ==> page.hasTrack && paintedWidth > 0)
      && (!page.hasPrev ==> !view.prevDisabled)
      && (!page.hasNext ==> !view.nextDisabled)
    }

    /** Once painted, the view shows the current page: the offset of `currentIndex`
        and each existing button disabled exactly at its end of the range. */
    ghost predicate Valid()
      reads this
    {
      && Sound()
      && (painted ==>
            && view.offset == TranslateX(currentIndex, paintedWidth)
            && view.prevDisabled == (page.hasPrev && currentIndex == 0)
            && view.nextDisabled == (page.hasNext && currentIndex >= MaxIndex(page.itemCount)))
    }

    /** Script load: index 0, nothing painted yet (the track untransformed, both
        buttons enabled). */
    constructor (page: Page)
      ensures Valid()
      ensures this.page == page && currentIndex == 0 && touchStartX == 0 && touchEndX == 0
      ensures view == View(0, false, false) && !painted
    {
      this.page := page;
      currentIndex := 0;
      touchStartX, touchEndX := 0, 0;
      view := View(0, false, false);
      painted := false;
      paintedWidth := DefaultItemWidth;
    }

    /** updateCarousel, with the first item's width as measured at this moment. */
    method Render(measured: nat)
      requires Sound()
      modifies this
      ensures Valid()
      ensures currentIndex == old(currentIndex)
      ensures touchStartX == old(touchStartX) && touchEndX == old(touchEndX)
      ensures view == Paint(old(view), page, currentIndex, measured)
      ensures painted == (old(painted) || page.hasTrack)
    {
      view := Paint(view, page, currentIndex, measured);
      if page.hasTrack {
        painted := true;
        paintedWidth := ItemWidth(page.itemCount, measured);
      }
    }

    /** The prev button's click handler: step back and repaint, or do nothing. */
    method ClickPrev(measured: nat)
      requires Valid()
      modifies this
      ensures Valid()
      ensures currentIndex == PrevIndex(old(currentIndex))
      ensures touchStartX == old(touchStartX) && touchEndX == old(touchEndX)
      ensures view == if currentIndex != old(currentIndex)
                      then Paint(old(view), page, currentIndex, measured) else old(view)
    {
      if currentIndex > 0 {
        currentIndex := currentIndex - 1;
        Render(measured);
      }
    }

    /** The next button's click handler: step on and repaint, or do nothing. */
    method ClickNext(measured: nat)
      requires Valid()
      modifies this
      ensures Valid()
      ensures currentIndex == NextIndex(old(currentIndex), page.itemCount)
      ensures touchStartX == old(touchStartX) && touchEndX == old(touchEndX)
      ensures view == if currentIndex != old(currentIndex)
                      then Paint(old(view), page, currentIndex, measured) else old(view)
    {
      var maxIndex := MaxIndex(page.itemCount);
      if currentIndex < maxIndex {
        currentIndex := currentIndex + 1;
        Render(measured);
      }
    }

    /** The track's touchstart handler. */
    method TouchStart(screenX: int)
      modifies this
      ensures touchStartX == screenX
      ensures currentIndex == old(currentIndex) && touchEndX == old(touchEndX) && view == old(view)
      ensures painted == old(painted) && paintedWidth == old(paintedWidth)
    {
      touchStartX := screenX;
    }

    /** handleSwipe, over the recorded touch coordinates. */
    method HandleSwipe(measured: nat)
      requires Valid()
      modifies this
      ensures Valid()
      ensures currentIndex == SwipeIndex(old(currentIndex), page.itemCount, touchStartX, touchEndX)
      ensures touchStartX == old(touchStartX) && touchEndX == old(touchEndX)
      ensures view == if currentIndex != old(currentIndex)
                      then Paint(old(view), page, currentIndex, measured) else old(view)
    {
      var diff := touchStartX - touchEndX;
      var magnitude := if diff < 0 then -diff else diff;
      if magnitude > SwipeThreshold {
        if diff > 0 {
          var maxIndex := MaxIndex(page.itemCount);
          if currentIndex < maxIndex {
            currentIndex := currentIndex + 1;
            Render(measured);
          }
        } else {
          if currentIndex > 0 {
            currentIndex := currentIndex - 1;
            Render(measured);
          }
        }
      }
    }

    /** The track's touchend handler: record the end point, then handle the swipe. */
    method TouchEnd(screenX: int, measured: nat)
      requires Valid()
      modifies this
      ensures Valid()
      ensures touchEndX == screenX && touchStartX == old(touchStartX)
      ensures currentIndex == SwipeIndex(old(currentIndex), page.itemCount, touchStartX, screenX)
      ensures view == if currentIndex != old(currentIndex)
                      then Paint(old(view), page, currentIndex, measured) else old(view)
    {
      touchEndX := screenX;
      HandleSwipe(measured);
    }

    /** The document's keydown handler. ArrowLeft and ArrowRight call click() on the
        button; a disabled button ignores click(), which by `Valid` happens only where
        the click handler would not move anyway. */
    method KeyDown(key: string, measured: nat)
      requires Valid()
      modifies this
      ensures Valid()
      ensures currentIndex == Apply(page, old(currentIndex), Key(key))
      ensures touchStartX == old(touchStartX) && touchEndX == old(touchEndX)
      ensures view == if currentIndex != old(currentIndex)
                      then Paint(old(view), page, currentIndex, measured) else old(view)
    {
      if key == "ArrowLeft" && page.hasPrev {
        if !view.prevDisabled {
          ClickPrev(measured);
        }
      } else if key == "ArrowRight" && page.hasNext {
        if !view.nextDisabled {
          ClickNext(measured);
        }
      }
    }
  }
}
