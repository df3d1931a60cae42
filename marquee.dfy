/**
 * `MarqueeAnimation` of src/marquee.js: the configuration read from each
 * `[data-marquee-scroll-direction-target]` element, the styles and clones
 * it adds, and the direction logic of its scroll trigger. The gsap tween
 * is reduced to its time scale and the items' starting `xPercent`.
 */
module Marquee {
  import opened JsText

  /** A number as `parseFloat` gives it: finite or NaN. */
  datatype Num = Finite(v: real) | NaN

  function Neg(n: Num): Num
  {
    match n
    case Finite(v) => Finite(-v)
    case NaN => NaN
  }

  /** `a * k + b` on a parsed number. */
  function Affine(n: Num, k: real, b: real): Num
  {
    match n
    case Finite(v) => Finite(v * k + b)
    case NaN => NaN
  }

  /** `getSpeedMultiplier` for `window.innerWidth`. */
  function SpeedMultiplier(innerWidth: int): (m: real)
    ensures innerWidth < 479 ==> m == 0.25
    ensures 479 <= innerWidth < 991 ==> m == 0.5
    ensures innerWidth >= 991 ==> m == 1.0
  {
    if innerWidth < 479 then 0.25 else if innerWidth < 991 then 0.5 else 1.0
  }

  /** A wider window never gets a smaller multiplier, and no multiplier exceeds 1. */
  lemma SpeedMultiplierMonotone(w1: int, w2: int)
    requires w1 <= w2
    ensures 0.0 < SpeedMultiplier(w1) <= SpeedMultiplier(w2) <= 1.0
  {
  }

  /** `direction === 'right' ? 1 : -1`. */
  function DirectionAttr(direction: Option<string>): (d: int)
    ensures d == 1 <==> direction == Some("right")
    ensures d == 1 || d == -1
  {
    if direction == Some("right") then 1 else -1
  }

  /**
   * `parseInt(duplicate || 0)`: a missing or empty attribute reads as 0,
   * anything else through `parseInt` with no radix (`None` for NaN).
   */
  function DuplicateAmount(duplicate: Option<string>): (r: Option<int>)
    ensures duplicate.None? || duplicate == Some("") ==> r == Some(0)
  {
    if duplicate.None? || duplicate == Some("") then Some(0) else ParseIntAutoRadix(duplicate.value)
  }

  /**
   * An attribute holding a decimal integer, with any non-digit text after
   * it, gives that integer; only "0" followed by `x` or `X` is read
   * otherwise, as a hexadecimal prefix.
   */
  lemma DuplicateAmountReadsDecimal(n: int, rest: string)
    requires rest == [] || !IsDigit(rest[0])
    requires n != 0 || rest == [] || (rest[0] != 'x' && rest[0] != 'X')
    ensures DuplicateAmount(Some(Decimal(n) + rest)) == Some(n)
  {
    ParseIntAutoRadixReadsDecimal(n, rest);
  }

  /** An attribute such as "0x3" is read as hexadecimal and gives 3. */
  lemma DuplicateAmountReadsHex(x: char, d: string, rest: string)
    requires x == 'x' || x == 'X'
    requires |d| >= 1 && forall i :: 0 <= i < |d| ==> IsHexDigit(d[i])
    requires rest == [] || !IsHexDigit(rest[0])
    ensures DuplicateAmount(Some(['0', x] + d + rest)) == Some(HexValue(d))
    ensures CloneCount(DuplicateAmount(Some(['0', x] + d + rest))) == HexValue(d)
  {
    ParseIntAutoRadixHex(x, d, rest);
  }

  /** The number of clones `duplicateContent` appends: none for NaN or an amount of at most 0. */
  function CloneCount(amount: Option<int>): (n: nat)
    ensures amount.Some? && amount.value > 0 ==> n == amount.value
    ensures amount.None? || amount.value <= 0 ==> n == 0
  {
    if amount.Some? && amount.value > 0 then amount.value else 0
  }

  /** The `data-*` attributes of one marquee, with `data-marquee-scroll-speed` already through `parseFloat`. */
  datatype Dataset = Dataset(direction: Option<string>, duplicate: Option<string>, scrollSpeed: Num)

  /** `getMarqueeConfig`, without the speed and duration, which are floating-point products. */
  datatype MarqueeConfig = MarqueeConfig(directionAttr: int, duplicateAmount: Option<int>, scrollSpeedAttr: Num, speedMultiplier: real)

  function ConfigOf(d: Dataset, innerWidth: int): (c: MarqueeConfig)
    ensures c.directionAttr == DirectionAttr(d.direction) && c.duplicateAmount == DuplicateAmount(d.duplicate)
    ensures c.scrollSpeedAttr == d.scrollSpeed && c.speedMultiplier == SpeedMultiplier(innerWidth)
  {
    MarqueeConfig(DirectionAttr(d.direction), DuplicateAmount(d.duplicate), d.scrollSpeed, SpeedMultiplier(innerWidth))
  }

  /** The items' starting `xPercent`: 100 when moving right, -100 otherwise. */
  function InitialXPercent(directionAttr: int): (x: int)
    ensures directionAttr == 1 ==> x == 100
    ensures directionAttr != 1 ==> x == -100
  {
    if directionAttr == 1 then 100 else -100
  }

  /** The start and end of the parallax tween, in `vw`. */
  function ScrollRange(directionAttr: int, scrollSpeedAttr: Num): (r: (Num, Num))
    ensures r.1 == Neg(r.0)
    ensures directionAttr == -1 ==> r.0 == scrollSpeedAttr
    ensures directionAttr != -1 ==> r.0 == Neg(scrollSpeedAttr)
  {
    var start := if directionAttr == -1 then scrollSpeedAttr else Neg(scrollSpeedAttr);
    (start, Neg(start))
  }

  /**
   * The `onUpdate` of the direction trigger: the time scale and the
   * `data-marquee-status` it sets for the scroll direction `scrollDirection`.
   */
  function ScrollUpdate(directionAttr: int, scrollDirection: int): (r: (int, string))
  {
    var isInverted := scrollDirection == 1;
    (if isInverted then -directionAttr else directionAttr, if isInverted then "normal" else "inverted")
  }

  /**
   * Scrolling down (direction 1) plays the marquee against its attribute
   * direction and sets the status `normal`; scrolling up plays it along its
   * direction and sets `inverted`. Either way the speed is unchanged.
   */
  lemma ScrollUpdateOutcome(directionAttr: int, scrollDirection: int)
    requires directionAttr == 1 || directionAttr == -1
    ensures var (timeScale, status) := ScrollUpdate(directionAttr, scrollDirection);
            (status == "normal" <==> scrollDirection == 1)
            && (status == "normal" <==> timeScale == -directionAttr)
            && (status == "inverted" <==> timeScale == directionAttr)
            && (timeScale == 1 || timeScale == -1)
  {
  }

  /**
   * The way the items' `xPercent` moves while the main tween plays at time
   * scale `timeScale`: the tween runs it toward -100, so forward play
   * lowers it and reversed play raises it.
   */
  function ItemsDrift(timeScale: int): int {
    -timeScale
  }

  /**
   * The parallax tween runs from `-directionAttr * speed` to
   * `directionAttr * speed`, and it is scrubbed, so scrolling in direction
   * `scrollDirection` moves it by `scrollDirection * (end - start)`. The
   * direction trigger sets the time scale for the same scroll, and the
   * result is that, for a positive speed, the parallax layer always moves
   * the same way as the items.
   */
  lemma ParallaxMovesWithItems(directionAttr: int, speed: real, scrollDirection: int)
    requires directionAttr == 1 || directionAttr == -1
    requires scrollDirection == 1 || scrollDirection == -1
    ensures var (s, e) := ScrollRange(directionAttr, Finite(speed));
            s.v == -(directionAttr as real) * speed && e.v == directionAttr as real * speed
    ensures var (s, e) := ScrollRange(directionAttr, Finite(speed));
            var (timeScale, _) := ScrollUpdate(directionAttr, scrollDirection);
            scrollDirection as real * (e.v - s.v) == 2.0 * speed * ItemsDrift(timeScale) as real
  {
  }

  /** A `[data-marquee-scroll-direction-target]` element and what the script does to it. */
  class MarqueeElement {
    const hasContent: bool
    const hasScroll: bool
    const dataset: Dataset
    /** The `[data-marquee-collection-target]` elements inside it. */
    var items: nat
    /** The inline `margin-left` and `width` of the scroll target, in percent, as last written. */
    var marginLeft: Option<Num>
    var width: Option<Num>
    var xPercent: Option<int>
    var timeScale: Option<int>
    var status: Option<string>
    var scrollRange: Option<(Num, Num)>

    /** A marquee as the page holds it, with `initialItems` collection targets inside. */
    constructor (content: bool, scroll: bool, d: Dataset, initialItems: nat)
      ensures hasContent == content && hasScroll == scroll && dataset == d && items == initialItems
      ensures Untouched()
    {
      hasContent, hasScroll, dataset, items := content, scroll, d, initialItems;
      marginLeft, width, xPercent, timeScale, status, scrollRange := None, None, None, None, None, None;
    }

    ghost predicate Untouched()
      reads this
    {
      marginLeft.None? && width.None? && xPercent.None? && timeScale.None? && status.None? && scrollRange.None?
    }

    ghost predicate SetUp()
      reads this
    {
      timeScale.Some? && (timeScale.value == 1 || timeScale.value == -1)
    }

    /** Every field `setupMarquee` may write. */
    ghost function Fields(): (nat, Option<Num>, Option<Num>, Option<int>, Option<int>, Option<string>, Option<(Num, Num)>)
      reads this
    {
      (items, marginLeft, width, xPercent, timeScale, status, scrollRange)
    }

    /**
     * What `setupMarquee` leaves behind at window width `innerWidth` when
     * the marquee held `oldItems` collection targets before.
     */
    ghost predicate SetUpAt(innerWidth: int, oldItems: nat)
      reads this
    {
      var c := ConfigOf(dataset, innerWidth);
      marginLeft == Some(Neg(c.scrollSpeedAttr))
      && width == Some(Affine(c.scrollSpeedAttr, 2.0, 100.0))
      && items == oldItems + CloneCount(c.duplicateAmount)
      && xPercent == Some(InitialXPercent(c.directionAttr))
      && timeScale == Some(c.directionAttr) && status == Some("normal")
      && scrollRange == Some(ScrollRange(c.directionAttr, c.scrollSpeedAttr))
      && SetUp()
    }

    /**
     * `setupMarquee`: nothing without the content or the scroll target;
     * otherwise the styles, the clones, the tween and the status.
     */
    method Setup(innerWidth: int)
      modifies this
      ensures !hasContent || !hasScroll ==> Fields() == old(Fields())
      ensures hasContent && hasScroll ==>
                var c := ConfigOf(dataset, innerWidth);
                marginLeft == Some(Neg(c.scrollSpeedAttr))
                && width == Some(Affine(c.scrollSpeedAttr, 2.0, 100.0))
                && items == old(items) + CloneCount(c.duplicateAmount)
                && xPercent == Some(InitialXPercent(c.directionAttr))
                && timeScale == Some(c.directionAttr) && status == Some("normal")
                && scrollRange == Some(ScrollRange(c.directionAttr, c.scrollSpeedAttr))
                && SetUp()
      ensures hasContent && hasScroll ==> SetUpAt(innerWidth, old(items))
    {
      if !hasContent || !hasScroll {
        return;
      }
      var config := ConfigOf(dataset, innerWidth);
      marginLeft := Some(Affine(config.scrollSpeedAttr, -1.0, 0.0));
      assert Affine(config.scrollSpeedAttr, -1.0, 0.0) == Neg(config.scrollSpeedAttr);
      width := Some(Affine(config.scrollSpeedAttr, 2.0, 100.0));
      DuplicateContent(config.duplicateAmount);
      xPercent := Some(if config.directionAttr == 1 then 100 else -100);
      timeScale := Some(config.directionAttr);
      status := Some("normal");
      var start := if config.directionAttr == -1 then config.scrollSpeedAttr else Neg(config.scrollSpeedAttr);
      scrollRange := Some((start, Neg(start)));
      assert xPercent == Some(InitialXPercent(config.directionAttr));
      assert scrollRange == Some(ScrollRange(config.directionAttr, config.scrollSpeedAttr));
    }

    /** `duplicateContent`: clones of the content go into a fragment, appended when the amount is positive. */
    method DuplicateContent(duplicateAmount: Option<int>)
      modifies this
      ensures items == old(items) + CloneCount(duplicateAmount)
      ensures marginLeft == old(marginLeft) && width == old(width) && xPercent == old(xPercent)
      ensures timeScale == old(timeScale) && status == old(status) && scrollRange == old(scrollRange)
    {
      if duplicateAmount.Some? && duplicateAmount.value > 0 {
        var fragment: nat := 0;
        var i := 0;
        while i < duplicateAmount.value
          invariant 0 <= i <= duplicateAmount.value && fragment == i
        {
          fragment := fragment + 1;
          i := i + 1;
        }
        items := items + fragment;
      }
    }

    /** The direction trigger's `onUpdate` for the scroll direction `scrollDirection`. */
    method OnScrollUpdate(scrollDirection: int)
      requires SetUp() && hasContent && hasScroll
      modifies this
      ensures SetUp()
      ensures status.Some? && (timeScale.value, status.value) == ScrollUpdate(DirectionAttr(dataset.direction), scrollDirection)
      ensures items == old(items) && marginLeft == old(marginLeft) && width == old(width)
      ensures xPercent == old(xPercent) && scrollRange == old(scrollRange)
    {
      var directionAttr := DirectionAttr(dataset.direction);
      var isInverted := scrollDirection == 1;
      timeScale := Some(if isInverted then -directionAttr else directionAttr);
      status := Some(if isInverted then "normal" else "inverted");
    }
  }

  /**
   * `initMarquees`: every marquee is set up in document order; one without
   * its content or scroll target is left as it was.
   */
  method InitMarquees(marquees: seq<MarqueeElement>, innerWidth: int)
    requires forall i, j :: 0 <= i < j < |marquees| ==> marquees[i] != marquees[j]
    modifies set m | m in marquees
    ensures forall m :: m in marquees && m.hasContent && m.hasScroll ==> m.SetUpAt(innerWidth, old(m.items))
    ensures forall m :: m in marquees && !(m.hasContent && m.hasScroll) ==> m.Fields() == old(m.Fields())
  {
    if |marquees| == 0 {
      return;
    }
    var i := 0;
    while i < |marquees|
      invariant 0 <= i <= |marquees|
      invariant forall k :: 0 <= k < i && marquees[k].hasContent && marquees[k].hasScroll ==>
                  marquees[k].SetUpAt(innerWidth, old(marquees[k].items))
      invariant forall k :: 0 <= k < i && !(marquees[k].hasContent && marquees[k].hasScroll) ==>
                  marquees[k].Fields() == old(marquees[k].Fields())
      invariant forall k :: i <= k < |marquees| ==> marquees[k].Fields() == old(marquees[k].Fields())
    {
      marquees[i].Setup(innerWidth);
      i := i + 1;
    }
  }
}
