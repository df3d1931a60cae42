/**
 * The two button character splitters: `initButtonCharacterStagger` of
 * src/main.js (one span per UTF-16 code unit, guarded by the
 * `data-stagger-initialized` marker, processed in chunks of five) and
 * `ButtonCharacterStagger.init` of src/navigation.js (one span per code
 * point, no marker).
 */
module ButtonStagger {
  import opened JsText

  /** One generated span: its text, its `transition-delay` in seconds, and whether it has `white-space: pre`. */
  datatype Span = Span(text: seq<Unit>, delay: real, preserveSpace: bool)

  /** What a button holds: its markup before splitting (seen through its text) or the spans after. */
  datatype Content = Markup(text: seq<Unit>) | Spans(spans: seq<Span>)

  /** A `[data-button-animate-chars]` button and its `data-stagger-initialized` attribute. */
  datatype Button = Button(content: Content, staggerInitialized: Option<string>)

  function SpanTexts(spans: seq<Span>): seq<seq<Unit>>
  {
    seq(|spans|, i requires 0 <= i < |spans| => spans[i].text)
  }

  /** `button.textContent`. */
  function TextContent(c: Content): seq<Unit>
  {
    match c
    case Markup(text) => text
    case Spans(spans) => Concat(SpanTexts(spans))
  }

  const MainBaseDelay: real := 0.05
  const NavBaseDelay: real := 1.0
  const OffsetIncrement: real := 0.01

  /** The spans src/main.js builds: `text[j]` for each code unit, delay 0.05 + 0.01 j. */
  function UnitSpans(text: seq<Unit>): (r: seq<Span>)
    ensures |r| == |text|
    ensures forall j :: 0 <= j < |r| ==> |r[j].text| == 1 && r[j].delay == MainBaseDelay + j as real * OffsetIncrement
    ensures forall j :: 0 <= j < |r| ==> (r[j].preserveSpace <==> r[j].text == [Space])
  {
    seq(|text|, j requires 0 <= j < |text| => Span([text[j]], MainBaseDelay + j as real * OffsetIncrement, text[j] == Space))
  }

  /** The spans src/navigation.js builds: one per code point, delay 1 + 0.01 i. */
  function CodePointSpans(text: seq<Unit>): (r: seq<Span>)
    ensures |r| == |CodePoints(text)|
    ensures forall i :: 0 <= i < |r| ==> r[i].text == CodePoints(text)[i] && r[i].delay == NavBaseDelay + i as real * OffsetIncrement
    ensures forall i :: 0 <= i < |r| ==> (r[i].preserveSpace <==> r[i].text == [Space])
  {
    var pieces := CodePoints(text);
    seq(|pieces|, i requires 0 <= i < |pieces| => Span(pieces[i], NavBaseDelay + i as real * OffsetIncrement, pieces[i] == [Space]))
  }

  lemma {:induction false} ConcatSingletons(text: seq<Unit>, pieces: seq<seq<Unit>>)
    requires |pieces| == |text|
    requires forall j :: 0 <= j < |text| ==> pieces[j] == [text[j]]
    ensures Concat(pieces) == text
  {
    if text != [] {
      ConcatSingletons(text[1..], pieces[1..]);
    }
  }

  /** The unit spans spell the text they were made from. */
  lemma UnitSpansText(text: seq<Unit>)
    ensures Concat(SpanTexts(UnitSpans(text))) == text
  {
    ConcatSingletons(text, SpanTexts(UnitSpans(text)));
  }

  /** The code-point spans spell the text they were made from. */
  lemma CodePointSpansText(text: seq<Unit>)
    ensures Concat(SpanTexts(CodePointSpans(text))) == text
  {
    assert SpanTexts(CodePointSpans(text)) == CodePoints(text);
    ConcatCodePoints(text);
  }

  /** What src/main.js does to one button: nothing if marked, else split by unit and mark. */
  function StaggerOnce(b: Button): (r: Button)
    ensures TextContent(r.content) == TextContent(b.content)
    ensures r.staggerInitialized == Some("true")
    ensures b.staggerInitialized == Some("true") ==> r == b
    ensures b.staggerInitialized != Some("true") ==> r.content == Spans(UnitSpans(TextContent(b.content)))
  {
    if b.staggerInitialized == Some("true") then b
    else
      UnitSpansText(TextContent(b.content));
      Button(Spans(UnitSpans(TextContent(b.content))), Some("true"))
  }

  /** A second run of src/main.js's splitter changes nothing. */
  lemma StaggerOnceIdempotent(b: Button)
    ensures StaggerOnce(StaggerOnce(b)) == StaggerOnce(b)
  {
  }

  /** What src/navigation.js does to one button: split by code point, marker untouched. */
  function SplitByCodePoint(b: Button): (r: Button)
    ensures TextContent(r.content) == TextContent(b.content)
    ensures r.staggerInitialized == b.staggerInitialized
    ensures r.content.Spans? && |r.content.spans| <= |TextContent(b.content)|
    ensures r.content == Spans(CodePointSpans(TextContent(b.content)))
  {
    CodePointSpansText(TextContent(b.content));
    Button(Spans(CodePointSpans(TextContent(b.content))), b.staggerInitialized)
  }

  /**
   * With no marker, a second run of src/navigation.js's splitter does the
   * work again but, since the text is unchanged, builds the same spans.
   */
  lemma SplitByCodePointStable(b: Button)
    ensures SplitByCodePoint(SplitByCodePoint(b)) == SplitByCodePoint(b)
  {
  }

  /**
   * When src/navigation.js splits an unmarked button first and src/main.js
   * splits it again by unit, the result is what src/main.js alone would
   * have built.
   */
  lemma NavigationThenMain(b: Button)
    requires b.staggerInitialized != Some("true")
    ensures StaggerOnce(SplitByCodePoint(b)) == StaggerOnce(b)
  {
  }

  /**
   * The two splitters give the same number of spans exactly when the text
   * holds no surrogate pair.
   */
  lemma SplittersAgreeOnCount(b: Button)
    requires b.staggerInitialized != Some("true")
    ensures |StaggerOnce(b).content.spans| == |SplitByCodePoint(b).content.spans| <==>
            forall i :: 0 <= i < |TextContent(b.content)| - 1 ==>
              !(IsHighSurrogate(TextContent(b.content)[i]) && IsLowSurrogate(TextContent(b.content)[i + 1]))
  {
    CodePointsCount(TextContent(b.content));
  }

  /** The span loop of `processButtonChunk` for one button. */
  method BuildUnitSpans(text: seq<Unit>) returns (spans: seq<Span>)
    ensures spans == UnitSpans(text)
  {
    spans := [];
    var j := 0;
    while j < |text|
      invariant 0 <= j <= |text|
      invariant spans == UnitSpans(text[..j])
    {
      spans := spans + [Span([text[j]], MainBaseDelay + j as real * OffsetIncrement, text[j] == Space)];
      j := j + 1;
    }
    assert text[..j] == text;
  }

  /**
   * `processButtonChunk(start, size)`: handles the buttons from `start` up
   * to `size` further, and returns where the next chunk starts.
   */
  method ProcessButtonChunk(buttons: array<Button>, start: nat, size: nat) returns (end: nat)
    requires start <= buttons.Length
    modifies buttons
    ensures end == if start + size < buttons.Length then start + size else buttons.Length
    ensures forall k :: start <= k < end ==> buttons[k] == StaggerOnce(old(buttons[k]))
    ensures forall k :: 0 <= k < buttons.Length && !(start <= k < end) ==> buttons[k] == old(buttons[k])
  {
    end := if start + size < buttons.Length then start + size else buttons.Length;
    var i := start;
    while i < end
      invariant start <= i <= end
      invariant forall k :: start <= k < i ==> buttons[k] == StaggerOnce(old(buttons[k]))
      invariant forall k :: 0 <= k < buttons.Length && !(start <= k < i) ==> buttons[k] == old(buttons[k])
    {
      var button := buttons[i];
      if button.staggerInitialized == Some("true") {
        i := i + 1;
        continue;
      }
      var spans := BuildUnitSpans(TextContent(button.content));
      buttons[i] := Button(Spans(spans), Some("true"));
      i := i + 1;
    }
  }

  /**
   * `initButtonCharacterStagger`: every chunk of five is processed (each
   * later chunk in its own animation frame), so in the end every button is
   * split and marked once.
   */
  method InitButtonCharacterStagger(buttons: array<Button>)
    modifies buttons
    ensures forall k :: 0 <= k < buttons.Length ==> buttons[k] == StaggerOnce(old(buttons[k]))
  {
    if buttons.Length == 0 {
      return;
    }
    var start := 0;
    while start < buttons.Length
      invariant 0 <= start <= buttons.Length
      invariant forall k :: 0 <= k < start ==> buttons[k] == StaggerOnce(old(buttons[k]))
      invariant forall k :: start <= k < buttons.Length ==> buttons[k] == old(buttons[k])
    {
      start := ProcessButtonChunk(buttons, start, 5);
    }
  }

  /** The span loop of `ButtonCharacterStagger.init` for one button. */
  method BuildCodePointSpans(text: seq<Unit>) returns (spans: seq<Span>)
    ensures spans == CodePointSpans(text)
  {
    var pieces := CodePoints(text);
    spans := [];
    var index := 0;
    while index < |pieces|
      invariant 0 <= index <= |pieces|
      invariant spans == CodePointSpans(text)[..index]
    {
      spans := spans + [Span(pieces[index], NavBaseDelay + index as real * OffsetIncrement, pieces[index] == [Space])];
      index := index + 1;
    }
  }

  /** `ButtonCharacterStagger.init`: every button is split by code point. */
  method SplitButtonsByCodePoint(buttons: array<Button>)
    modifies buttons
    ensures forall k :: 0 <= k < buttons.Length ==> buttons[k] == SplitByCodePoint(old(buttons[k]))
  {
    var i := 0;
    while i < buttons.Length
      invariant 0 <= i <= buttons.Length
      invariant forall k :: 0 <= k < i ==> buttons[k] == SplitByCodePoint(old(buttons[k]))
      invariant forall k :: i <= k < buttons.Length ==> buttons[k] == old(buttons[k])
    {
      var b := buttons[i];
      var spans := BuildCodePointSpans(TextContent(b.content));
      buttons[i] := Button(Spans(spans), b.staggerInitialized);
      assert buttons[i] == SplitByCodePoint(b);
      i := i + 1;
    }
  }
}
