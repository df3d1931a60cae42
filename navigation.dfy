/**
 * `Navigation` and `NavigationAnchors` of src/navigation.js: the menu that
 * opens and closes with a scroll lock, and the shape that marks the
 * current menu link. The gsap timelines are reduced to the one effect
 * that changes state: the open timeline ends by calling `lockScroll`,
 * unless `tl.clear()` cancels it first.
 */
module Navigation {
  import opened JsText
  import opened Dom

  /**
   * The element `document.querySelector("html.lenis, .lenis body")` finds:
   * the root element when it has the class `lenis`, otherwise none. The
   * body's only ancestor is the root, so `.lenis body` matches only when
   * `html.lenis` does too, and the root comes first in document order.
   */
  datatype LenisBody = NoLenisBody | RootIsLenisBody

  /**
   * The state the menu works on: the `data-nav` attribute and the copy
   * `this.state` makes of it, the inline styles of `.nav`, `<html>` and
   * `<body>`, the saved and the current scroll offset, `window.lenis`
   * (`None` when undefined, else whether it is stopped), and whether the
   * open timeline's final `lockScroll` call is still to come.
   */
  datatype NavState = NavState(
    dataNav: Option<string>, state: Option<string>,
    navStyle: Style, htmlStyle: Style, bodyStyle: Style,
    scrollPosition: int, scrollY: int, windowLenis: Option<bool>, lockPending: bool)

  /** `el.style.overflow = value` on the element `lenisBody` names. */
  function SetLenisBodyOverflow(s: NavState, lenisBody: LenisBody, value: string): NavState
  {
    match lenisBody
    case NoLenisBody => s
    case RootIsLenisBody => s.(htmlStyle := SetStyle(s.htmlStyle, "overflow", value))
  }

  /** The offset `lockScroll` pins the body at: `-${scrollPosition}px`. */
  function TopValue(scrollPosition: int): string
  {
    "-" + Decimal(scrollPosition) + "px"
  }

  /** The properties `lockScroll` sets on `<html>` and on `<body>`. */
  const HtmlLockProps: set<string> := {"overflow", "height"}
  const BodyLockProps: set<string> := {"overflow", "height", "position", "top", "width"}

  /** The `<html>` style `lockScroll` leaves. */
  function LockedHtml(st: Style): Style
  {
    st["overflow" := "hidden"]["height" := "100%"]
  }

  /** The `<body>` style `lockScroll` leaves, pinned at `top`. */
  function LockedBody(st: Style, top: string): Style
  {
    st["overflow" := "hidden"]["height" := "100%"]["position" := "fixed"]["top" := top]["width" := "100%"]
  }

  /** `lockScroll`. */
  function Lock(s: NavState, lenisBody: LenisBody): (r: NavState)
    ensures r.dataNav == s.dataNav && r.scrollPosition == s.scrollPosition && r.scrollY == s.scrollY
    ensures r.windowLenis == s.windowLenis && r.lockPending == s.lockPending
  {
    var t := s.(navStyle := s.navStyle["pointer-events" := "auto"], htmlStyle := LockedHtml(s.htmlStyle),
                bodyStyle := LockedBody(s.bodyStyle, TopValue(s.scrollPosition)));
    SetLenisBodyOverflow(t, lenisBody, "hidden")
  }

  /** `unlockScroll`: clears what `lockScroll` set and scrolls back to the saved offset. */
  function Unlock(s: NavState, lenisBody: LenisBody): (r: NavState)
    ensures r.dataNav == s.dataNav && r.scrollPosition == s.scrollPosition && r.navStyle == s.navStyle
    ensures r.lockPending == s.lockPending
  {
    var t := s.(htmlStyle := s.htmlStyle - HtmlLockProps, bodyStyle := s.bodyStyle - BodyLockProps,
                scrollY := s.scrollPosition);
    var u := SetLenisBodyOverflow(t, lenisBody, "");
    if u.windowLenis.Some? then u.(windowLenis := Some(false)) else u
  }

  /** `openNav`: the lock itself waits for the end of the open timeline. */
  function Open(s: NavState): (r: NavState)
  {
    s.(dataNav := Some("open"), scrollPosition := s.scrollY,
       windowLenis := if s.windowLenis.Some? then Some(true) else None, lockPending := true)
  }

  /** The end of the open timeline: its last step calls `lockScroll`. */
  function OpenTimelineEnd(s: NavState, lenisBody: LenisBody): (r: NavState)
  {
    if s.lockPending then Lock(s, lenisBody).(lockPending := false) else s
  }

  /** `closeNav`: `tl.clear()` drops a lock the open timeline had not reached yet. */
  function Close(s: NavState, lenisBody: LenisBody): (r: NavState)
  {
    var t := s.(dataNav := Some("closed"), navStyle := s.navStyle["pointer-events" := "none"]);
    Unlock(t, lenisBody).(lockPending := false)
  }

  /** A click on a `[data-menu-toggle]` element. */
  function Toggle(s: NavState, lenisBody: LenisBody): (r: NavState)
  {
    var t := s.(state := s.dataNav);
    if t.state == Some("open") then Close(t, lenisBody) else Open(t)
  }

  /**
   * The toggle re-reads `data-nav` on every click: `open` closes the menu
   * and any other value, a missing attribute included, opens it.
   */
  lemma ToggleFlips(s: NavState, lenisBody: LenisBody)
    ensures Toggle(s, lenisBody).dataNav == (if s.dataNav == Some("open") then Some("closed") else Some("open"))
    ensures Toggle(s, lenisBody).state == s.dataNav
    ensures s.dataNav != Some("open") ==> Toggle(s, lenisBody).scrollPosition == s.scrollY
    ensures s.dataNav == Some("open") ==> Toggle(s, lenisBody).navStyle["pointer-events"] == "none"
  {
  }

  /**
   * `lockScroll` pins the body at minus the saved offset, and `parseInt`
   * reads that offset back from the `top` it writes.
   */
  lemma LockPinsBody(s: NavState, lenisBody: LenisBody)
    requires s.scrollPosition >= 0
    ensures var r := Lock(s, lenisBody);
            "top" in r.bodyStyle && r.bodyStyle["top"] == TopValue(s.scrollPosition)
            && ParseInt(r.bodyStyle["top"]) == Some(-s.scrollPosition)
            && r.bodyStyle["position"] == "fixed" && r.htmlStyle["overflow"] == "hidden"
            && r.bodyStyle["overflow"] == "hidden" && r.navStyle["pointer-events"] == "auto"
  {
    LenisBodyWriteIsRedundant(s, lenisBody);
    var top := TopValue(s.scrollPosition);
    var r := Lock(s, NoLenisBody);
    assert r.bodyStyle == LockedBody(s.bodyStyle, top) && r.htmlStyle == LockedHtml(s.htmlStyle);
    LockedBodyPins(s.bodyStyle, top);
    TopValueReadsBack(s.scrollPosition);
  }

  /** `parseInt` reads the offset back from the `top` value. */
  lemma TopValueReadsBack(n: nat)
    ensures ParseInt(TopValue(n)) == Some(-(n as int))
  {
    assert TopValue(n) == "-" + NatDecimal(n) + "px";
    ParseIntNegatedDecimal(n, "px");
  }

  lemma LockedBodyPins(st: Style, top: string)
    ensures var b := LockedBody(st, top);
            "top" in b && b["top"] == top && b["position"] == "fixed" && b["overflow"] == "hidden"
  {
  }

  /**
   * `unlockScroll` after `lockScroll` scrolls back to the saved offset and
   * leaves `<html>` and `<body>` without any of the properties the lock
   * set and with every other inline property as it was.
   */
  lemma LockThenUnlock(s: NavState, lenisBody: LenisBody)
    ensures var r := Unlock(Lock(s, lenisBody), lenisBody);
            r.scrollY == s.scrollPosition
            && r.htmlStyle == s.htmlStyle - HtmlLockProps
            && r.bodyStyle == s.bodyStyle - BodyLockProps
  {
    LenisBodyWriteIsRedundant(s, lenisBody);
    var l := Lock(s, NoLenisBody);
    LenisBodyWriteIsRedundant(l, lenisBody);
    var u := Unlock(l, NoLenisBody);
    assert l.htmlStyle == LockedHtml(s.htmlStyle) && l.bodyStyle == LockedBody(s.bodyStyle, TopValue(s.scrollPosition));
    assert u.htmlStyle == l.htmlStyle - HtmlLockProps && u.bodyStyle == l.bodyStyle - BodyLockProps;
    LockedHtmlUnlocked(s.htmlStyle);
    LockedBodyUnlocked(s.bodyStyle, TopValue(s.scrollPosition));
  }

  lemma LockedHtmlUnlocked(st: Style)
    ensures LockedHtml(st) - HtmlLockProps == st - HtmlLockProps
  {
  }

  lemma LockedBodyUnlocked(st: Style, top: string)
    ensures LockedBody(st, top) - BodyLockProps == st - BodyLockProps
  {
  }

  /**
   * The element `html.lenis, .lenis body` finds is the root, whose
   * `overflow` the lock and the unlock set anyway, so writing it again
   * changes nothing.
   */
  lemma LenisBodyWriteIsRedundant(s: NavState, lenisBody: LenisBody)
    ensures Lock(s, lenisBody) == Lock(s, NoLenisBody)
    ensures Unlock(s, lenisBody) == Unlock(s, NoLenisBody)
  {
    var html := LockedHtml(s.htmlStyle);
    assert SetStyle(html, "overflow", "hidden") == html;
    assert SetStyle(s.htmlStyle - HtmlLockProps, "overflow", "") == s.htmlStyle - HtmlLockProps;
  }

  /**
   * Opening, letting the open timeline finish and closing again puts the
   * page back where it was scrolled, with no lock property left behind.
   */
  lemma OpenCloseRestoresScroll(s: NavState, lenisBody: LenisBody)
    requires s.dataNav != Some("open")
    ensures var r := Toggle(OpenTimelineEnd(Toggle(s, lenisBody), lenisBody), lenisBody);
            r.dataNav == Some("closed") && r.scrollY == s.scrollY && !r.lockPending
            && r.htmlStyle == s.htmlStyle - HtmlLockProps && r.bodyStyle == s.bodyStyle - BodyLockProps
  {
    var t := Toggle(s, lenisBody);
    LockThenUnlock(t, lenisBody);
  }

  /**
   * Closing before the open timeline has finished cancels the lock: the
   * timeline's end then changes nothing.
   */
  lemma CloseCancelsPendingLock(s: NavState, lenisBody: LenisBody)
    requires s.dataNav != Some("open")
    ensures var r := Toggle(Toggle(s, lenisBody), lenisBody);
            !r.lockPending && OpenTimelineEnd(r, lenisBody) == r
  {
  }

  /** The property-by-property writes of `unlockScroll` remove exactly the lock's properties. */
  lemma UnlockSteps(html: Style, body: Style)
    ensures SetStyle(SetStyle(html, "overflow", ""), "height", "") == html - HtmlLockProps
    ensures SetStyle(SetStyle(SetStyle(SetStyle(SetStyle(body, "overflow", ""), "height", ""),
              "position", ""), "top", ""), "width", "") == body - BodyLockProps
  {
  }

  /** `Navigation`. */
  class Nav {
    /** Whether `.nav` exists; without it the constructor returns at once. */
    const present: bool
    const lenisBody: LenisBody
    var listening: bool
    var dataNav: Option<string>
    var state: Option<string>
    var navStyle: Style
    var htmlStyle: Style
    var bodyStyle: Style
    var scrollPosition: int
    var scrollY: int
    var windowLenis: Option<bool>
    var lockPending: bool

    ghost function State(): NavState
      reads this
    {
      NavState(dataNav, state, navStyle, htmlStyle, bodyStyle, scrollPosition, scrollY, windowLenis, lockPending)
    }

    /**
     * `new Navigation()`: inert without `.nav`; otherwise `state` copies
     * `data-nav`, the saved offset is 0 and the toggles listen.
     */
    constructor (navPresent: bool, lb: LenisBody, initial: NavState)
      ensures present == navPresent && lenisBody == lb && listening == navPresent
      ensures State() == initial.(state := if navPresent then initial.dataNav else None,
                                  scrollPosition := 0, lockPending := false)
    {
      present := navPresent;
      lenisBody := lb;
      listening := navPresent;
      dataNav := initial.dataNav;
      state := if navPresent then initial.dataNav else None;
      navStyle, htmlStyle, bodyStyle := initial.navStyle, initial.htmlStyle, initial.bodyStyle;
      scrollPosition := 0;
      scrollY := initial.scrollY;
      windowLenis := initial.windowLenis;
      lockPending := false;
    }

    /** The click handler of the menu toggles. */
    method OnToggleClick()
      requires present
      modifies this
      ensures State() == Toggle(old(State()), lenisBody)
      ensures listening == old(listening)
    {
      state := dataNav;
      if state == Some("open") {
        CloseNav();
      } else {
        OpenNav();
      }
    }

    /** `openNav`. */
    method OpenNav()
      modifies this
      ensures State() == Open(old(State()))
      ensures listening == old(listening)
    {
      dataNav := Some("open");
      scrollPosition := scrollY;
      if windowLenis.Some? {
        windowLenis := Some(true);
      }
      lockPending := true;
    }

    /** The open timeline reaching its final `.call(() => this.lockScroll())`. */
    method OnOpenTimelineEnd()
      modifies this
      ensures State() == OpenTimelineEnd(old(State()), lenisBody)
      ensures listening == old(listening)
    {
      if lockPending {
        LockScroll();
        lockPending := false;
      }
    }

    /** `closeNav`. */
    method CloseNav()
      modifies this
      ensures State() == Close(old(State()), lenisBody)
      ensures listening == old(listening)
    {
      dataNav := Some("closed");
      navStyle := SetStyle(navStyle, "pointer-events", "none");
      UnlockScroll();
      lockPending := false;
    }

    /** `lockScroll`: each inline property set to a non-empty value. */
    method LockScroll()
      modifies this
      ensures State() == Lock(old(State()), lenisBody)
      ensures listening == old(listening)
    {
      navStyle := navStyle["pointer-events" := "auto"];
      htmlStyle := htmlStyle["overflow" := "hidden"];
      htmlStyle := htmlStyle["height" := "100%"];
      bodyStyle := bodyStyle["overflow" := "hidden"];
      bodyStyle := bodyStyle["height" := "100%"];
      bodyStyle := bodyStyle["position" := "fixed"];
      bodyStyle := bodyStyle["top" := TopValue(scrollPosition)];
      bodyStyle := bodyStyle["width" := "100%"];
      SetLenisBodyStyle("hidden");
    }

    /** `unlockScroll`. */
    method UnlockScroll()
      modifies this
      ensures State() == Unlock(old(State()), lenisBody)
      ensures listening == old(listening)
    {
      var html := SetStyle(htmlStyle, "overflow", "");
      html := SetStyle(html, "height", "");
      var body := SetStyle(bodyStyle, "overflow", "");
      body := SetStyle(body, "height", "");
      body := SetStyle(body, "position", "");
      body := SetStyle(body, "top", "");
      body := SetStyle(body, "width", "");
      UnlockSteps(htmlStyle, bodyStyle);
      htmlStyle, bodyStyle := html, body;
      scrollY := scrollPosition;
      SetLenisBodyStyle("");
      if windowLenis.Some? {
        windowLenis := Some(false);
      }
    }

    /** `if (this.lenisBody) this.lenisBody.style.overflow = value`. */
    method SetLenisBodyStyle(value: string)
      modifies this
      ensures State() == SetLenisBodyOverflow(old(State()), lenisBody, value)
      ensures listening == old(listening)
    {
      match lenisBody {
        case NoLenisBody =>
        case RootIsLenisBody => htmlStyle := SetStyle(htmlStyle, "overflow", value);
      }
    }
  }

  // ---------------------------------------------------------------------
  // NavigationAnchors
  // ---------------------------------------------------------------------

  /** The first `.menu_link.w--current`: its page offset and its inner width. */
  datatype LinkBox = LinkBox(offsetLeft: real, innerWidth: real)

  /** The CSS `transition` values `setupTransitions` writes, for a duration of 500 ms. */
  const ShapeBgTransition := "width 250ms"
  const ShapeTransition := "all 500ms"

  /** `NavigationAnchors`. */
  class MenuShape {
    /** Whether `.menu_shape` exists; without it the constructor returns at once. */
    const present: bool
    var observing: bool
    var linkBgOpacity: Option<string>
    var opacity: Option<string>
    var left: Option<real>
    var width: Option<real>
    var transition: Option<string>
    var bgTransition: Option<string>

    /**
     * `new NavigationAnchors()` up to its first `snapToCurrent`: the
     * transitions are set and the observer and listeners are registered.
     */
    constructor (shapePresent: bool)
      ensures present == shapePresent && observing == shapePresent
      ensures shapePresent ==> transition == Some(ShapeTransition) && bgTransition == Some(ShapeBgTransition)
      ensures !shapePresent ==> transition == None && bgTransition == None
      ensures linkBgOpacity == None && opacity == None && left == None && width == None
    {
      present := shapePresent;
      observing := shapePresent;
      linkBgOpacity, opacity, left, width := None, None, None, None;
      transition := if shapePresent then Some(ShapeTransition) else None;
      bgTransition := if shapePresent then Some(ShapeBgTransition) else None;
    }

    /**
     * `snapToCurrent`, given the current link (if any) and the left offset
     * of `.menu` (`None` when there is no `.menu`, so that `moveShape`
     * throws after the shape was made visible).
     */
    method SnapToCurrent(current: Option<LinkBox>, menuLeft: Option<real>) returns (threw: bool)
      requires present
      modifies this
      ensures linkBgOpacity == Some("0")
      ensures opacity == (if current.Some? then Some("1") else Some("0"))
      ensures threw <==> current.Some? && menuLeft.None?
      ensures current.Some? && menuLeft.Some? ==>
                left == Some(current.value.offsetLeft - menuLeft.value) && width == Some(current.value.innerWidth)
      ensures current.None? || menuLeft.None? ==> left == old(left) && width == old(width)
      ensures observing == old(observing) && transition == old(transition) && bgTransition == old(bgTransition)
    {
      linkBgOpacity := Some("0");
      opacity := Some("1");
      threw := false;
      if current.Some? {
        threw := MoveShape(current.value, menuLeft);
      } else {
        opacity := Some("0");
      }
    }

    /** `moveShape(target)`. */
    method MoveShape(target: LinkBox, menuLeft: Option<real>) returns (threw: bool)
      modifies this
      ensures threw <==> menuLeft.None?
      ensures menuLeft.Some? ==> left == Some(ShapeLeft(target, menuLeft.value)) && width == Some(target.innerWidth)
      ensures menuLeft.None? ==> left == old(left) && width == old(width)
      ensures opacity == old(opacity) && linkBgOpacity == old(linkBgOpacity)
      ensures observing == old(observing) && transition == old(transition) && bgTransition == old(bgTransition)
    {
      if menuLeft.None? {
        return true;
      }
      left := Some(target.offsetLeft - menuLeft.value);
      width := Some(target.innerWidth);
      return false;
    }
  }

  /**
   * The `left` `moveShape` gives the shape, relative to `.menu`: placed
   * inside the menu, the shape starts at the link's own page offset.
   */
  function ShapeLeft(target: LinkBox, menuLeft: real): real
  {
    target.offsetLeft - menuLeft
  }
}
