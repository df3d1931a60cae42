/**
 * The decision rules and document updates of src/main.js that do not touch
 * the scroll engine: the navigation `prevent` rule, the visibility test and
 * the section-snapping layout choice, and the transition marker that the
 * grid-to-cms enter step sets and the `after` hook clears.
 */
module PageRules {
  import opened JsText
  import opened Dom

  const ActiveFlipItem := "active-flip-item"
  const FixedClass := "fixed"

  /**
   * The Barba `prevent` rule. `el` is the element that triggered the
   * navigation, given as its chain of itself and its ancestors, nearest
   * first (`None` for no element). Native navigation is forced when the
   * nearest Barba container has the namespace `cms-page`.
   */
  function Prevent(el: Option<seq<Attrs>>): bool
  {
    if el.None? then false
    else
      var c := FirstContainer(el.value);
      c.Some? && IsCmsNamespace(el.value[c.value])
  }

  /**
   * `prevent` returns true exactly when there is an element and its
   * nearest enclosing Barba container (itself included) is a cms page.
   */
  lemma PreventIff(el: Option<seq<Attrs>>)
    ensures Prevent(el) <==>
      el.Some? && exists i :: 0 <= i < |el.value| && IsBarbaContainer(el.value[i]) && IsCmsNamespace(el.value[i])
                               && forall k :: 0 <= k < i ==> !IsBarbaContainer(el.value[k])
  {
    if el.Some? {
      var c := FirstContainer(el.value);
      if c.Some? && IsCmsNamespace(el.value[c.value]) {
        assert IsBarbaContainer(el.value[c.value]);
      }
    }
  }

  /** A container further up does not count once a nearer one is not a cms page. */
  lemma PreventNearestWins(el: seq<Attrs>, outer: seq<Attrs>)
    requires |el| > 0 && IsBarbaContainer(el[0]) && !IsCmsNamespace(el[0])
    ensures !Prevent(Some(el + outer))
  {
    assert (el + outer)[0] == el[0];
  }

  /** The parts of `getComputedStyle(element)` and of its box that the visibility test reads. */
  datatype ComputedStyle = ComputedStyle(display: string, visibility: string, opacity: string, offsetWidth: int, offsetHeight: int)

  /**
   * `isElementVisible`: an absent element, `display: none`, `visibility: hidden`,
   * an opacity whose integer part (`parseInt`) is 0, or a box with both
   * sides 0 makes it hidden.
   */
  function IsElementVisible(e: Option<ComputedStyle>): (r: bool)
    ensures r ==> e.Some? && e.value.display != "none" && e.value.visibility != "hidden"
    ensures r ==> ParseInt(e.value.opacity) != Some(0)
    ensures r ==> e.value.offsetWidth != 0 || e.value.offsetHeight != 0
    ensures (e.Some? && e.value.display != "none" && e.value.visibility != "hidden" && ParseInt(e.value.opacity) != Some(0)
             && (e.value.offsetWidth != 0 || e.value.offsetHeight != 0)) ==> r
  {
    if e.None? then false
    else if e.value.display == "none" then false
    else if e.value.visibility == "hidden" then false
    else if ParseInt(e.value.opacity) == Some(0) then false
    else if e.value.offsetWidth == 0 && e.value.offsetHeight == 0 then false
    else true
  }

  /**
   * The opacity test reads only the integer part, so every computed opacity
   * written as 0 followed by a fraction ("0.5", "0.99") counts as hidden.
   */
  lemma FractionalOpacityHides(e: ComputedStyle, fraction: string)
    requires e.opacity == "0" + fraction && (fraction == [] || !IsDigit(fraction[0]))
    ensures !IsElementVisible(Some(e))
  {
    ParseIntLeadingZero(fraction);
  }

  /**
   * For an element that passes the display, visibility and opacity tests,
   * a zero width alone, or a zero height alone, does not hide it: only
   * both sides zero do.
   */
  lemma OneZeroSideIsVisible(e: ComputedStyle)
    requires e.display != "none" && e.visibility != "hidden" && ParseInt(e.opacity) != Some(0)
    ensures IsElementVisible(Some(e)) <==> e.offsetWidth != 0 || e.offsetHeight != 0
  {
  }

  /** The number of a layout variant, `.layout-1` to `.layout-3`. */
  type Variant = k: nat | 1 <= k <= 3 witness 1

  /**
   * The layout variant whose sections are snapped: the first of `.layout-1`,
   * `.layout-2`, `.layout-3` (given in that order, `None` for a missing
   * one) that is visible, and the first variant when none is.
   */
  function LayoutVariant(layouts: seq<Option<ComputedStyle>>): (k: Variant)
    requires |layouts| == 3
    ensures k >= 2 ==> !IsElementVisible(layouts[0])
    ensures k == 3 ==> !IsElementVisible(layouts[1])
    ensures k == 1 ==> IsElementVisible(layouts[0]) || (!IsElementVisible(layouts[1]) && !IsElementVisible(layouts[2]))
    ensures k == 2 ==> IsElementVisible(layouts[1])
    ensures k == 3 ==> IsElementVisible(layouts[2])
  {
    if IsElementVisible(layouts[0]) then 1
    else if IsElementVisible(layouts[1]) then 2
    else if IsElementVisible(layouts[2]) then 3
    else 1
  }

  /** The section selector for a variant: `.s1`, `.s2` or `.s3`. */
  function SectionSelector(k: Variant): string
  {
    if k == 1 then ".s1" else if k == 2 then ".s2" else ".s3"
  }

  /**
   * What `initScrollify` hands to the snapping library: the section selector
   * of the chosen variant, or nothing when no element matches it.
   * `sectionCounts[k - 1]` is how many elements `.s<k>` selects.
   */
  function ScrollifySections(layouts: seq<Option<ComputedStyle>>, sectionCounts: seq<nat>): (r: Option<string>)
    requires |layouts| == 3 && |sectionCounts| == 3
    ensures var k := LayoutVariant(layouts);
            (r.None? <==> sectionCounts[k - 1] == 0) && (r.Some? ==> r.value == SectionSelector(k))
  {
    var k := LayoutVariant(layouts);
    if sectionCounts[k - 1] == 0 then None else Some(SectionSelector(k))
  }

  /** The cms-page element, reduced to the text of its first `.item-name` (`None` when it has none). */
  datatype CmsPageElement = CmsPageElement(itemName: Option<string>)

  /**
   * The element `makeItemActive` marks. `items` are the indices in the
   * document of the `.w-dyn-item` elements in document order, `names` the
   * text of each one's first `.item-name` (`None` when it has none).
   */
  function ActiveElement(cmsPage: Option<CmsPageElement>, items: seq<nat>, names: seq<Option<string>>): (r: Option<nat>)
    requires |items| == |names|
    ensures r.Some? ==> cmsPage.Some? && cmsPage.value.itemName.Some? && cmsPage.value.itemName.value != ""
    ensures r.Some? ==> exists i :: 0 <= i < |items| && items[i] == r.value && names[i] == cmsPage.value.itemName
                                   && forall k :: 0 <= k < i ==> names[k] != cmsPage.value.itemName
    ensures r.None? && cmsPage.Some? && cmsPage.value.itemName.Some? && cmsPage.value.itemName.value != "" ==>
              cmsPage.value.itemName !in names
  {
    if cmsPage.None? || cmsPage.value.itemName.None? || cmsPage.value.itemName.value == "" then None
    else
      var i := FirstIndexOf(names, cmsPage.value.itemName);
      if i.None? then None else Some(items[i.value])
  }

  /** `classes` with the class `c` added to the element at `target`, if any. */
  function AddClassAt(classes: seq<set<string>>, target: Option<nat>, c: string): (r: seq<set<string>>)
    ensures |r| == |classes|
    ensures forall k :: 0 <= k < |r| ==> r[k] == if target == Some(k) then classes[k] + {c} else classes[k]
  {
    seq(|classes|, k requires 0 <= k < |classes| => if target == Some(k) then classes[k] + {c} else classes[k])
  }

  /**
   * `makeItemActive`: adds `active-flip-item` to the first `.w-dyn-item`
   * whose item name equals the cms page's; nothing when the cms page, its
   * name element or its text is missing, or when no item matches.
   */
  method MakeItemActive(doc: array<set<string>>, cmsPage: Option<CmsPageElement>, items: seq<nat>, names: seq<Option<string>>)
    requires |items| == |names|
    requires forall i :: 0 <= i < |items| ==> items[i] < doc.Length
    modifies doc
    ensures doc[..] == AddClassAt(old(doc[..]), ActiveElement(cmsPage, items, names), ActiveFlipItem)
  {
    if cmsPage.None? { return; }
    if cmsPage.value.itemName.None? { return; }
    var name := cmsPage.value.itemName.value;
    if name == "" { return; }
    var i := 0;
    while i < |items|
      invariant 0 <= i <= |items|
      invariant forall k :: 0 <= k < i ==> names[k] != Some(name)
      invariant doc[..] == old(doc[..])
    {
      if names[i] == Some(name) {
        doc[items[i]] := doc[items[i]] + {ActiveFlipItem};
        assert FirstIndexOf(names, Some(name)) == Some(i);
        return;
      }
      i := i + 1;
    }
    assert doc[..] == AddClassAt(old(doc[..]), None, ActiveFlipItem);
  }

  /**
   * The document's class lists after the `after` hook: `fixed` removed from
   * the next container (`next`, if any) and `active-flip-item` from everything.
   */
  function AfterClasses(classes: seq<set<string>>, next: Option<nat>): (r: seq<set<string>>)
    ensures |r| == |classes|
    ensures forall k :: 0 <= k < |r| ==> ActiveFlipItem !in r[k]
    ensures next.Some? && next.value < |r| ==> FixedClass !in r[next.value]
    ensures forall k :: 0 <= k < |r| ==> r[k] <= classes[k]
    ensures forall k :: 0 <= k < |r| ==> classes[k] - r[k] <= {ActiveFlipItem, FixedClass}
    ensures forall k :: 0 <= k < |r| && next != Some(k) ==> r[k] == classes[k] - {ActiveFlipItem}
    ensures next.Some? && next.value < |r| ==> r[next.value] == classes[next.value] - {ActiveFlipItem, FixedClass}
  {
    seq(|classes|, k requires 0 <= k < |classes| =>
      if next == Some(k) then classes[k] - {FixedClass} - {ActiveFlipItem} else classes[k] - {ActiveFlipItem})
  }

  /** Running the `after` hook a second time changes nothing. */
  lemma AfterIdempotent(classes: seq<set<string>>, next: Option<nat>)
    ensures AfterClasses(AfterClasses(classes, next), next) == AfterClasses(classes, next)
  {
    var once := AfterClasses(classes, next);
    var twice := AfterClasses(once, next);
    forall k | 0 <= k < |once|
      ensures twice[k] == once[k]
    {
      if next == Some(k) {
        assert twice[k] == once[k] - {FixedClass} - {ActiveFlipItem};
      } else {
        assert twice[k] == once[k] - {ActiveFlipItem};
      }
    }
  }

  /** The `after` hook. */
  method AfterHook(doc: array<set<string>>, next: Option<nat>)
    modifies doc
    ensures doc[..] == AfterClasses(old(doc[..]), next)
  {
    if next.Some? && next.value < doc.Length {
      doc[next.value] := doc[next.value] - {FixedClass};
    }
    ghost var mid := doc[..];
    var i := 0;
    while i < doc.Length
      invariant 0 <= i <= doc.Length
      invariant forall k :: 0 <= k < i ==> doc[k] == mid[k] - {ActiveFlipItem}
      invariant forall k :: i <= k < doc.Length ==> doc[k] == mid[k]
    {
      doc[i] := doc[i] - {ActiveFlipItem};
      i := i + 1;
    }
    assert doc[..] == AfterClasses(old(doc[..]), next);
  }

  /**
   * The grid-to-cms transition's enter step as far as classes go: mark the
   * active item and fix the next container.
   */
  method TransitionEnter(doc: array<set<string>>, cmsPage: Option<CmsPageElement>, items: seq<nat>, names: seq<Option<string>>, next: Option<nat>)
    requires |items| == |names|
    requires forall i :: 0 <= i < |items| ==> items[i] < doc.Length
    modifies doc
    ensures doc[..] == AddClassAt(AddClassAt(old(doc[..]), ActiveElement(cmsPage, items, names), ActiveFlipItem), next, FixedClass)
  {
    MakeItemActive(doc, cmsPage, items, names);
    if next.Some? && next.value < doc.Length {
      doc[next.value] := doc[next.value] + {FixedClass};
    }
    assert doc[..] == AddClassAt(AddClassAt(old(doc[..]), ActiveElement(cmsPage, items, names), ActiveFlipItem), next, FixedClass);
  }

  /**
   * The enter step followed by the `after` hook leaves no marked item and
   * an unfixed next container, and every class not set by the enter step
   * other than those two is kept.
   */
  lemma EnterThenAfter(classes: seq<set<string>>, marked: Option<nat>, next: Option<nat>)
    ensures var r := AfterClasses(AddClassAt(AddClassAt(classes, marked, ActiveFlipItem), next, FixedClass), next);
      && |r| == |classes|
      && (forall k :: 0 <= k < |r| ==> ActiveFlipItem !in r[k])
      && (forall k :: 0 <= k < |r| ==> r[k] == classes[k] - {ActiveFlipItem} - (if next == Some(k) then {FixedClass} else {}))
  {
  }
}
