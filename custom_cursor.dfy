/**
 * `CustomCursor` of src/animations.js (which target section the pointer
 * is over, whether a hide zone masks it, and the label text copied from the
 * section) and the heading offset of `ScrollAnimations.initTextScrubbing`.
 * Bounding boxes are read at each event, so they are parameters; the gsap
 * tweens become the opacity the cursor is sent to.
 */
module CustomCursor {
  import opened JsText

  /** A `DOMRect` as `getBoundingClientRect` returns it. */
  datatype Rect = Rect(left: real, top: real, right: real, bottom: real)

  /** `isPointInRect`: inclusive on all four edges. */
  predicate IsPointInRect(x: real, y: real, r: Rect) {
    x >= r.left && x <= r.right && y >= r.top && y <= r.bottom
  }

  /** Every corner of a non-empty box counts as inside it. */
  lemma CornersAreInside(r: Rect)
    requires r.left <= r.right && r.top <= r.bottom
    ensures IsPointInRect(r.left, r.top, r) && IsPointInRect(r.right, r.top, r)
    ensures IsPointInRect(r.left, r.bottom, r) && IsPointInRect(r.right, r.bottom, r)
  {
  }

  /** The first box, in document order, that contains the point. */
  function FirstHit(rects: seq<Rect>, x: real, y: real): (r: Option<nat>)
    ensures r.Some? ==> r.value < |rects| && IsPointInRect(x, y, rects[r.value])
    ensures r.Some? ==> forall k :: 0 <= k < r.value ==> !IsPointInRect(x, y, rects[k])
    ensures r.None? <==> forall k :: 0 <= k < |rects| ==> !IsPointInRect(x, y, rects[k])
  {
    if rects == [] then None
    else if IsPointInRect(x, y, rects[0]) then Some(0)
    else match FirstHit(rects[1..], x, y)
         case None => None
         case Some(i) => Some(i + 1)
  }

  /** The part of the cursor's state `checkIntersection` decides. */
  datatype CursorState = CursorState(isOverTargetSection: bool, currentSection: Option<nat>, cursorText: string, opacity: real)

  /**
   * `checkIntersection(x, y)` with the sections' and hide zones' boxes of
   * that moment. `sectionTexts` holds each section's `.cursor-custom-text`
   * text, if it has one; `hasTextElement` says whether `.cursor-text`
   * exists, without which writing the label throws.
   */
  function Intersect(s: CursorState, x: real, y: real, sectionRects: seq<Rect>, hideRects: seq<Rect>,
                     sectionTexts: seq<Option<string>>, hasTextElement: bool): (r: (CursorState, bool))
    requires |sectionRects| == |sectionTexts|
  {
    var hit := FirstHit(sectionRects, x, y);
    var over := hit.Some? && FirstHit(hideRects, x, y).None?;
    var current := if hit.Some? then hit else s.currentSection;
    var opacity := if over then 1.0 else 0.0;
    if over && sectionTexts[hit.value].Some? then
      if hasTextElement then (CursorState(over, current, sectionTexts[hit.value].value, opacity), false)
      else (CursorState(over, current, s.cursorText, opacity), true)
    else (CursorState(over, current, s.cursorText, opacity), false)
  }

  /**
   * What a pointer move leaves behind: the cursor is over a target section
   * exactly when some section contains the point and no hide zone does;
   * the current section is the first one hit, or the old one when none
   * is; the cursor is sent to opacity 1 exactly when over a section; and
   * the label changes only to the text of the section it is over.
   */
  lemma IntersectOutcome(s: CursorState, x: real, y: real, sectionRects: seq<Rect>, hideRects: seq<Rect>,
                         sectionTexts: seq<Option<string>>, hasTextElement: bool)
    requires |sectionRects| == |sectionTexts|
    ensures var (r, threw) := Intersect(s, x, y, sectionRects, hideRects, sectionTexts, hasTextElement);
            (r.isOverTargetSection <==>
               (exists i :: 0 <= i < |sectionRects| && IsPointInRect(x, y, sectionRects[i]))
               && (forall j :: 0 <= j < |hideRects| ==> !IsPointInRect(x, y, hideRects[j])))
            && (r.opacity == 1.0 <==> r.isOverTargetSection) && (r.opacity == 0.0 <==> !r.isOverTargetSection)
            && ((forall i :: 0 <= i < |sectionRects| ==> !IsPointInRect(x, y, sectionRects[i])) ==> r.currentSection == s.currentSection)
            && (r.cursorText != s.cursorText ==>
                  r.isOverTargetSection && r.currentSection.Some? && r.currentSection.value < |sectionTexts|
                  && sectionTexts[r.currentSection.value] == Some(r.cursorText))
            && (threw <==> r.isOverTargetSection && sectionTexts[r.currentSection.value].Some? && !hasTextElement)
  {
    var hit := FirstHit(sectionRects, x, y);
    if hit.Some? {
      assert IsPointInRect(x, y, sectionRects[hit.value]);
    }
  }

  /**
   * Hide zones are consulted only when the point is over a section: with
   * no section under the pointer, the outcome does not depend on them.
   */
  lemma HideZonesOnlyMaskSections(s: CursorState, x: real, y: real, sectionRects: seq<Rect>,
                                  hideA: seq<Rect>, hideB: seq<Rect>,
                                  sectionTexts: seq<Option<string>>, hasTextElement: bool)
    requires |sectionRects| == |sectionTexts|
    requires forall i :: 0 <= i < |sectionRects| ==> !IsPointInRect(x, y, sectionRects[i])
    ensures Intersect(s, x, y, sectionRects, hideA, sectionTexts, hasTextElement)
         == Intersect(s, x, y, sectionRects, hideB, sectionTexts, hasTextElement)
  {
  }

  /** Of two overlapping sections, the one earlier in document order wins. */
  lemma EarlierSectionWins(s: CursorState, x: real, y: real, sectionRects: seq<Rect>, hideRects: seq<Rect>,
                           sectionTexts: seq<Option<string>>, hasTextElement: bool, i: nat, j: nat)
    requires |sectionRects| == |sectionTexts|
    requires i < j < |sectionRects| && IsPointInRect(x, y, sectionRects[i]) && IsPointInRect(x, y, sectionRects[j])
    ensures Intersect(s, x, y, sectionRects, hideRects, sectionTexts, hasTextElement).0.currentSection != Some(j)
  {
  }

  /** `CustomCursor`. */
  class Cursor {
    /** Whether `.custom-cursor` exists; without it the constructor returns before `init`. */
    const present: bool
    const sectionTexts: seq<Option<string>>
    const hasTextElement: bool
    var listening: bool
    var isOverTargetSection: bool
    var currentSection: Option<nat>
    var cursorText: string
    var opacity: real

    ghost function State(): CursorState
      reads this
    {
      CursorState(isOverTargetSection, currentSection, cursorText, opacity)
    }

    ghost predicate Valid()
      reads this
    {
      listening == present
      && (currentSection.Some? ==> currentSection.value < |sectionTexts|)
    }

    /**
     * `new CustomCursor()`: inert without `.custom-cursor`; otherwise not
     * over any section, with no current section, hidden, and listening.
     */
    constructor (cursorPresent: bool, texts: seq<Option<string>>, textElement: bool, initialText: string)
      ensures Valid() && present == cursorPresent && sectionTexts == texts && hasTextElement == textElement
      ensures listening == cursorPresent
      ensures State() == CursorState(false, None, initialText, 0.0)
    {
      present := cursorPresent;
      sectionTexts := texts;
      hasTextElement := textElement;
      listening := cursorPresent;
      isOverTargetSection := false;
      currentSection := None;
      cursorText := initialText;
      opacity := 0.0;
    }

    /** `checkIntersection(x, y)`, followed by `updateCursorVisibility` and `updateCursorText`. */
    method CheckIntersection(x: real, y: real, sectionRects: seq<Rect>, hideRects: seq<Rect>) returns (threw: bool)
      requires Valid() && present && |sectionRects| == |sectionTexts|
      modifies this
      ensures Valid() && listening == old(listening)
      ensures (State(), threw) == Intersect(old(State()), x, y, sectionRects, hideRects, sectionTexts, hasTextElement)
    {
      isOverTargetSection := false;
      var i := 0;
      while i < |sectionRects|
        invariant 0 <= i <= |sectionRects|
        invariant forall k :: 0 <= k < i ==> !IsPointInRect(x, y, sectionRects[k])
        invariant !isOverTargetSection && currentSection == old(currentSection)
      {
        if IsPointInRect(x, y, sectionRects[i]) {
          isOverTargetSection := true;
          currentSection := Some(i);
          break;
        }
        i := i + 1;
      }
      assert isOverTargetSection ==> FirstHit(sectionRects, x, y) == Some(i);
      assert !isOverTargetSection ==> FirstHit(sectionRects, x, y) == None;
      if isOverTargetSection {
        CheckHideElements(x, y, hideRects);
      }
      opacity := if isOverTargetSection then 1.0 else 0.0;
      threw := UpdateCursorText();
    }

    /** `checkHideElements(x, y)`: a hide zone under the point turns the flag off. */
    method CheckHideElements(x: real, y: real, hideRects: seq<Rect>)
      modifies this
      ensures isOverTargetSection == (old(isOverTargetSection) && FirstHit(hideRects, x, y).None?)
      ensures currentSection == old(currentSection) && cursorText == old(cursorText) && opacity == old(opacity)
      ensures listening == old(listening)
    {
      var j := 0;
      while j < |hideRects|
        invariant 0 <= j <= |hideRects|
        invariant forall k :: 0 <= k < j ==> !IsPointInRect(x, y, hideRects[k])
        invariant isOverTargetSection == old(isOverTargetSection)
        invariant currentSection == old(currentSection) && cursorText == old(cursorText) && opacity == old(opacity)
        invariant listening == old(listening)
      {
        if IsPointInRect(x, y, hideRects[j]) {
          isOverTargetSection := false;
          return;
        }
        j := j + 1;
      }
    }

    /** `updateCursorText`: copies the current section's custom text, if any. */
    method UpdateCursorText() returns (threw: bool)
      requires currentSection.Some? ==> currentSection.value < |sectionTexts|
      modifies this
      ensures isOverTargetSection == old(isOverTargetSection) && currentSection == old(currentSection)
      ensures opacity == old(opacity) && listening == old(listening)
      ensures var copies := isOverTargetSection && currentSection.Some? && sectionTexts[currentSection.value].Some?;
              (threw <==> copies && !hasTextElement)
              && cursorText == (if copies && hasTextElement then sectionTexts[currentSection.value].value else old(cursorText))
    {
      threw := false;
      if isOverTargetSection && currentSection.Some? {
        var text := sectionTexts[currentSection.value];
        if text.Some? {
          if !hasTextElement {
            return true;
          }
          cursorText := text.value;
        }
      }
    }
  }

  // ---------------------------------------------------------------------
  // ScrollAnimations.initTextScrubbing
  // ---------------------------------------------------------------------

  /**
   * The `yPercent` a `.scroll_wrap` with `headings` headings is scrubbed to,
   * or `None` when it has none and no timeline is made.
   */
  function ScrubOffset(headings: nat): (r: Option<int>)
    ensures r.None? <==> headings == 0
    ensures r.Some? ==> r.value <= 0 && r.value % 100 == 0
    ensures r.Some? ==> (headings - 1) * 100 + r.value == 0
  {
    if headings == 0 then None else Some(-100 * (headings - 1))
  }

  /**
   * `initTextScrubbing` over the `.scroll_wrap` elements, given by their
   * heading counts: one timeline per wrap that has headings, in order.
   */
  method InitTextScrubbing(wraps: seq<nat>) returns (timelines: seq<(nat, int)>)
    ensures forall t :: t in timelines ==> t.0 < |wraps| && wraps[t.0] > 0 && ScrubOffset(wraps[t.0]) == Some(t.1)
    ensures forall w :: 0 <= w < |wraps| && wraps[w] > 0 ==> exists t :: t in timelines && t.0 == w
    ensures forall a, b :: 0 <= a < b < |timelines| ==> timelines[a].0 < timelines[b].0
  {
    timelines := [];
    var w := 0;
    while w < |wraps|
      invariant 0 <= w <= |wraps|
      invariant forall t :: t in timelines ==> t.0 < w && wraps[t.0] > 0 && ScrubOffset(wraps[t.0]) == Some(t.1)
      invariant forall v :: 0 <= v < w && wraps[v] > 0 ==> exists t :: t in timelines && t.0 == v
      invariant forall a, b :: 0 <= a < b < |timelines| ==> timelines[a].0 < timelines[b].0
    {
      var indexLength := wraps[w] as int - 1;
      if indexLength >= 0 {
        timelines := timelines + [(w, -100 * indexLength)];
      }
      w := w + 1;
    }
  }
}
