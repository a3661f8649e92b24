/**
 * The layout-aware PDF stripper of the knowledge-base pipeline: a state machine folded over
 * the positioned text runs and page ends that the PDF text extractor reports, producing a
 * Markdown buffer with `## ` headings, paragraph breaks and line wraps.
 *
 * Coordinates and font sizes are only compared against thresholds, so they are exact reals.
 * `AfterWriteString` and `AfterPageEnd` are the specification of one callback each; the class
 * `LayoutAwareStripper` updates its fields in place and is proved to follow them.
 */
module LayoutParser {
  import opened JavaText

  /** The first glossary term: nothing before it (preface, table of contents) is kept. */
  const StartMarker: string := "가계부실위험지수(HDRI)"
  /** The contributors heading of the appendix: nothing from it on is kept. */
  const EndMarker: string := "경제금융용어 700선  집필자"
  /** The dot leaders of table-of-contents lines. */
  const TocLeader: string := "・・・・・・"
  const HeadingFontSizeThreshold: real := 11.5
  const ParagraphSpaceThreshold: real := 1.5
  const HeaderYLimit: real := 70.0
  const FooterYLimit: real := 770.0
  /** The "no previous line on this page" value of `lastY` and `lastFontSize`. */
  const NoPosition: real := -1.0

  /** One glyph position: its vertical coordinate and its font size in points. */
  datatype TextPosition = TextPosition(y: real, fontSizeInPt: real)

  /** The callbacks the PDF text extractor makes, in document order. */
  datatype LayoutEvent = WriteText(text: string, positions: seq<TextPosition>) | EndOfPage

  datatype StripperState = StripperState(
    markdown: string,
    lastY: real,
    lastFontSize: real,
    isNewLine: bool,
    contentStarted: bool,
    contentEnded: bool)

  const Initial: StripperState := StripperState("", NoPosition, NoPosition, true, false, false)

  function Abs(x: real): real { if x < 0.0 then -x else x }

  /** A stray index glyph: a single Hangul consonant ㄱ-ㅎ or a single capital Latin letter. */
  predicate IsJunk(t: string) {
    |t| == 1 && (('ㄱ' <= t[0] <= 'ㅎ') || ('A' <= t[0] <= 'Z'))
  }

  /** A block is dropped by the table-of-contents and header/footer filters. */
  predicate IsNoise(trimmed: string, positions: seq<TextPosition>)
    requires positions != []
  {
    Contains(trimmed, TocLeader) || positions[0].y < HeaderYLimit || positions[0].y > FooterYLimit
  }

  /** Whether a block at height `y` starts a new line, given the previous line's height. */
  predicate StartsNewLine(lastY: real, y: real) {
    lastY == NoPosition || Abs(y - lastY) > 1.0
  }

  /**
   * The separator placed before a block: a paragraph break for a large vertical gap, a line
   * break for a small one, a space between runs of the same line. Returns the new buffer and
   * whether the block starts a new line.
   */
  function LineBreak(md: string, lastY: real, y: real, fontSize: real): (r: (string, bool))
    ensures r.1 == StartsNewLine(lastY, y)
    ensures StartsWith(r.0, md) && |r.0| <= |md| + 2
    ensures lastY == NoPosition ==> r.0 == md
    ensures r.1 && lastY != NoPosition && Abs(y - lastY) > fontSize * ParagraphSpaceThreshold && md != []
      ==> EndsWith(r.0, "\n\n")
    ensures r.1 && md != [] && lastY != NoPosition ==> EndsWith(r.0, "\n")
    ensures !r.1 && md != [] ==> EndsWith(r.0, " ") || EndsWith(r.0, "\n")
    ensures !r.1 ==> |r.0| <= |md| + 1
  {
    if lastY == NoPosition then (md, true)
    else if Abs(y - lastY) > 1.0 then
      if Abs(y - lastY) > fontSize * ParagraphSpaceThreshold then
        (if |md| > 0 && !EndsWith(md, "\n\n") then md + "\n\n" else md, true)
      else
        (if |md| > 0 && !EndsWith(md, "\n") && !EndsWith(md, "\n\n") then md + "\n" else md, true)
    else
      (if |md| > 0 && !EndsWith(md, " ") && !EndsWith(md, "\n") then md + " " else md, false)
  }

  /** A heading starts on a fresh paragraph: an empty buffer or one ending in a blank line. */
  function ParagraphBoundary(md: string): (r: string)
    ensures r == [] || EndsWith(r, "\n\n")
    ensures md == [] ==> r == []
  {
    if |md| > 0 && !EndsWith(md, "\n\n") then
      (if EndsWith(md, "\n") then md[..|md| - 1] else md) + "\n\n"
    else md
  }

  /** Removes one trailing blank line, or else one trailing newline. */
  function DropTrailingBreak(md: string): (r: string)
    ensures StartsWith(md, r) && |md| - 2 <= |r|
    ensures EndsWith(md, "\n\n") ==> |r| == |md| - 2
    ensures !EndsWith(md, "\n\n") && EndsWith(md, "\n") ==> |r| == |md| - 1
    ensures !EndsWith(md, "\n") ==> r == md
  {
    if EndsWith(md, "\n\n") then md[..|md| - 2]
    else if EndsWith(md, "\n") then md[..|md| - 1]
    else md
  }

  /** What the block adds to the buffer once the separator is in place. */
  function Emit(md: string, isNewLine: bool, fontSize: real, trimmed: string, text: string): (r: string)
    ensures isNewLine && fontSize > HeadingFontSizeThreshold && !IsJunk(trimmed)
      ==> r == ParagraphBoundary(md) + "## " + trimmed
    ensures isNewLine && IsJunk(trimmed) ==> r == DropTrailingBreak(md)
    ensures isNewLine && fontSize <= HeadingFontSizeThreshold && !IsJunk(trimmed) ==> r == md + trimmed
    ensures !isNewLine ==> r == md + text
  {
    if isNewLine && fontSize > HeadingFontSizeThreshold && !IsJunk(trimmed) then
      ParagraphBoundary(md) + "## " + trimmed
    else if isNewLine && IsJunk(trimmed) then
      DropTrailingBreak(md)
    else if isNewLine then
      md + trimmed
    else
      md + text
  }

  /** A heading is written as `## ` and its text, on a fresh paragraph of the buffer. */
  lemma HeadingOnFreshParagraph(md: string, fontSize: real, trimmed: string, text: string)
    requires fontSize > HeadingFontSizeThreshold && !IsJunk(trimmed)
    ensures var r := Emit(md, true, fontSize, trimmed, text);
      && |r| >= |trimmed| + 3
      && var prefix := r[..|r| - |trimmed| - 3];
      && r == prefix + "## " + trimmed
      && (prefix == [] || EndsWith(prefix, "\n\n"))
      && (md == [] ==> r == "## " + trimmed)
  {
    var r := Emit(md, true, fontSize, trimmed, text);
    var prefix := ParagraphBoundary(md);
    assert r == prefix + "## " + trimmed;
    assert r[..|r| - |trimmed| - 3] == prefix;
  }

  /** The specification of `writeString(text, positions)`. */
  function AfterWriteString(s: StripperState, text: string, positions: seq<TextPosition>): (r: StripperState)
    ensures positions == [] || IsBlank(text) || s.contentEnded ==> r == s
    ensures s.contentStarted ==> r.contentStarted
    ensures s.contentEnded ==> r.contentEnded
    ensures !s.contentStarted && r.contentStarted ==> Trim(text) == StartMarker
    ensures !r.contentStarted ==> r.markdown == s.markdown && r.lastY == s.lastY
    ensures !s.contentEnded && r.contentEnded ==> Contains(Trim(text), EndMarker) && r.markdown == s.markdown
    ensures positions != [] && !IsBlank(text) && !s.contentEnded && Contains(Trim(text), EndMarker)
      ==> r == s.(contentEnded := true)
    ensures positions != [] && IsNoise(Trim(text), positions) ==> r.markdown == s.markdown
    ensures r.lastY == s.lastY || (positions != [] && r.lastY == positions[|positions| - 1].y)
  {
    var trimmed := Trim(text);
    if positions == [] || trimmed == [] then s
    else if s.contentEnded then s
    else if Contains(trimmed, EndMarker) then s.(contentEnded := true)
    else if !s.contentStarted && trimmed != StartMarker then s
    else AfterBlock(s.(contentStarted := true), trimmed, text, positions)
  }

  /** A block of the content proper: filtered as noise, or laid out after its separator. */
  function AfterBlock(s: StripperState, trimmed: string, text: string, positions: seq<TextPosition>): (r: StripperState)
    requires positions != []
    ensures r.contentStarted == s.contentStarted && r.contentEnded == s.contentEnded
    ensures IsNoise(trimmed, positions) ==> r == s
    ensures r.lastY == s.lastY || r.lastY == positions[|positions| - 1].y
    ensures !IsNoise(trimmed, positions) ==> r.isNewLine == StartsNewLine(s.lastY, positions[0].y)
    ensures !IsNoise(trimmed, positions) && !(r.isNewLine && IsJunk(trimmed))
      ==> r.lastY == positions[|positions| - 1].y && r.lastFontSize == positions[0].fontSizeInPt
    ensures r.isNewLine && IsJunk(trimmed) ==> r.lastY == s.lastY && r.lastFontSize == s.lastFontSize
  {
    if IsNoise(trimmed, positions) then s
    else
      var fontSize := positions[0].fontSizeInPt;
      var (md, newLine) := LineBreak(s.markdown, s.lastY, positions[0].y, fontSize);
      var emitted := Emit(md, newLine, fontSize, trimmed, text);
      if newLine && IsJunk(trimmed) then
        s.(markdown := emitted, isNewLine := newLine)
      else
        s.(markdown := emitted, isNewLine := newLine,
           lastY := positions[|positions| - 1].y, lastFontSize := fontSize)
  }

  /** The specification of `writePageEnd()`: a paragraph break inside the content, and a fresh line position. */
  function AfterPageEnd(s: StripperState): (r: StripperState)
    ensures r.lastY == NoPosition && r.lastFontSize == NoPosition
    ensures r.contentStarted == s.contentStarted && r.contentEnded == s.contentEnded
    ensures r.markdown == if s.contentStarted && !s.contentEnded then s.markdown + "\n\n" else s.markdown
  {
    s.(markdown := if s.contentStarted && !s.contentEnded then s.markdown + "\n\n" else s.markdown,
       lastY := NoPosition, lastFontSize := NoPosition)
  }

  function Apply(s: StripperState, e: LayoutEvent): StripperState {
    match e
    case WriteText(text, positions) => AfterWriteString(s, text, positions)
    case EndOfPage => AfterPageEnd(s)
  }

  /** The stripper's state after a whole sequence of callbacks. */
  function Run(s: StripperState, events: seq<LayoutEvent>): StripperState
    decreases |events|
  {
    if events == [] then s else Run(Apply(s, events[0]), events[1..])
  }

  /** `getMarkdownResult()` of a document given as its callback sequence. */
  function MarkdownOf(events: seq<LayoutEvent>): string {
    Trim(Run(Initial, events).markdown)
  }

  /** Once the end marker has been seen, every later block and page end leaves the buffer as it is. */
  lemma {:induction false} EndedIsFinal(s: StripperState, events: seq<LayoutEvent>)
    requires s.contentEnded
    ensures Run(s, events).contentEnded
    ensures Run(s, events).markdown == s.markdown
    ensures Run(s, events).contentStarted == s.contentStarted
    decreases |events|
  {
    if events != [] {
      EndedIsFinal(Apply(s, events[0]), events[1..]);
    }
  }

  /** Neither content flag is ever reset. */
  lemma {:induction false} FlagsAreSticky(s: StripperState, events: seq<LayoutEvent>)
    ensures s.contentStarted ==> Run(s, events).contentStarted
    ensures s.contentEnded ==> Run(s, events).contentEnded
    decreases |events|
  {
    if events != [] {
      FlagsAreSticky(Apply(s, events[0]), events[1..]);
    }
  }

  /** Before content starts, the buffer is empty and no line position is remembered. */
  predicate PreStart(s: StripperState) {
    !s.contentStarted ==> s.markdown == [] && s.lastY == NoPosition
  }

  lemma {:induction false} PreStartHolds(s: StripperState, events: seq<LayoutEvent>)
    requires PreStart(s)
    ensures PreStart(Run(s, events))
    decreases |events|
  {
    if events != [] {
      PreStartHolds(Apply(s, events[0]), events[1..]);
    }
  }

  /** A document whose start marker never appears produces no Markdown at all. */
  lemma NoStartNoText(events: seq<LayoutEvent>)
    requires !Run(Initial, events).contentStarted
    ensures MarkdownOf(events) == []
  {
    PreStartHolds(Initial, events);
  }

  /** The start marker is neither the end marker, nor a table-of-contents line, nor a junk glyph. */
  lemma StartMarkerIsClean()
    ensures !Contains(StartMarker, EndMarker) && !Contains(StartMarker, TocLeader) && !IsJunk(StartMarker)
  {
    LacksNeedle(StartMarker, EndMarker);
    assert TocLeader[0] !in StartMarker;
    LacksNeedle(StartMarker, TocLeader);
  }

  /**
   * The start-marker block itself is kept: if it lies inside the page body, it becomes the
   * first text of the buffer, as a heading when its font is large.
   */
  lemma StartMarkerIsKept(s: StripperState, text: string, positions: seq<TextPosition>)
    requires PreStart(s) && !s.contentStarted && !s.contentEnded
    requires Trim(text) == StartMarker && positions != []
    requires HeaderYLimit <= positions[0].y <= FooterYLimit
    ensures AfterWriteString(s, text, positions).contentStarted
    ensures AfterWriteString(s, text, positions).markdown
      == if positions[0].fontSizeInPt > HeadingFontSizeThreshold then "## " + StartMarker else StartMarker
  {
    StartMarkerIsClean();
    var started := s.(contentStarted := true);
    assert AfterWriteString(s, text, positions) == AfterBlock(started, StartMarker, text, positions);
    assert !IsNoise(StartMarker, positions);
    assert LineBreak(s.markdown, s.lastY, positions[0].y, positions[0].fontSizeInPt) == ([], true);
  }

  /** A junk glyph on a new line adds no text and leaves the remembered line position alone. */
  lemma JunkLeavesPosition(s: StripperState, text: string, positions: seq<TextPosition>)
    requires positions != [] && IsJunk(Trim(text))
    requires StartsNewLine(s.lastY, positions[0].y)
    ensures AfterWriteString(s, text, positions).lastY == s.lastY
    ensures AfterWriteString(s, text, positions).lastFontSize == s.lastFontSize
    ensures |AfterWriteString(s, text, positions).markdown| <= |s.markdown| + 2
  {
  }

  /** The stripper itself: the Markdown buffer and the layout fields change in place on every callback. */
  class LayoutAwareStripper {
    var markdown: string
    var lastY: real
    var lastFontSize: real
    var isNewLine: bool
    var contentStarted: bool
    var contentEnded: bool

    function State(): StripperState
      reads this
    {
      StripperState(markdown, lastY, lastFontSize, isNewLine, contentStarted, contentEnded)
    }

    constructor ()
      ensures State() == Initial
    {
      markdown := "";
      lastY := NoPosition;
      lastFontSize := NoPosition;
      isNewLine := true;
      contentStarted := false;
      contentEnded := false;
    }

    method WriteString(text: string, textPositions: seq<TextPosition>)
      modifies this
      ensures State() == AfterWriteString(old(State()), text, textPositions)
    {
      ghost var s0 := State();
      if |textPositions| == 0 { return; }
      var trimmedText := Trim(text);
      if |trimmedText| == 0 { return; }
      if contentEnded { return; }
      if Contains(trimmedText, EndMarker) {
        contentEnded := true;
        assert State() == s0.(contentEnded := true);
        return;
      }
      if !contentStarted {
        if trimmedText == StartMarker {
          contentStarted := true;
        } else {
          return;
        }
      }
      assert State() == s0.(contentStarted := true);
      assert AfterWriteString(s0, text, textPositions) == AfterBlock(State(), trimmedText, text, textPositions);
      PlaceBlock(trimmedText, text, textPositions);
    }

    /** Step 3 of `writeString` onwards: the noise filters, then the separator and the text. */
    method PlaceBlock(trimmedText: string, text: string, textPositions: seq<TextPosition>)
      requires textPositions != []
      modifies this
      ensures State() == AfterBlock(old(State()), trimmedText, text, textPositions)
    {
      if Contains(trimmedText, TocLeader) { return; }
      var firstPos := textPositions[0];
      var currentY := firstPos.y;
      var currentFontSize := firstPos.fontSizeInPt;
      if currentY < HeaderYLimit || currentY > FooterYLimit { return; }
      InsertSeparator(currentY, currentFontSize);
      AppendBlock(currentFontSize, trimmedText, text);
      if !(isNewLine && IsJunk(trimmedText)) {
        lastY := textPositions[|textPositions| - 1].y;
        lastFontSize := currentFontSize;
      }
    }

    /** Step 4 of `writeString`: decide whether the block starts a new line and insert the separator. */
    method InsertSeparator(currentY: real, currentFontSize: real)
      modifies this`markdown, this`isNewLine
      ensures (markdown, isNewLine) == LineBreak(old(markdown), lastY, currentY, currentFontSize)
    {
      if lastY == NoPosition {
        isNewLine := true;
      } else if Abs(currentY - lastY) > 1.0 {
        isNewLine := true;
        if Abs(currentY - lastY) > currentFontSize * ParagraphSpaceThreshold {
          if |markdown| > 0 && !EndsWith(markdown, "\n\n") {
            markdown := markdown + "\n\n";
          }
        } else {
          if |markdown| > 0 && !EndsWith(markdown, "\n") && !EndsWith(markdown, "\n\n") {
            markdown := markdown + "\n";
          }
        }
      } else {
        isNewLine := false;
        if |markdown| > 0 && !EndsWith(markdown, " ") && !EndsWith(markdown, "\n") {
          markdown := markdown + " ";
        }
      }
    }

    /** Steps 5 and 6 of `writeString`: a heading, a dropped junk glyph, a new line or more of the same line. */
    method AppendBlock(currentFontSize: real, trimmedText: string, text: string)
      modifies this`markdown
      ensures markdown == Emit(old(markdown), isNewLine, currentFontSize, trimmedText, text)
    {
      var isJunkContent := IsJunk(trimmedText);
      if isNewLine && currentFontSize > HeadingFontSizeThreshold && !isJunkContent {
        if |markdown| > 0 && !EndsWith(markdown, "\n\n") {
          if EndsWith(markdown, "\n") {
            markdown := markdown[..|markdown| - 1];
          }
          markdown := markdown + "\n\n";
        }
        markdown := markdown + "## " + trimmedText;
      } else if isNewLine && isJunkContent {
        if EndsWith(markdown, "\n\n") {
          markdown := markdown[..|markdown| - 2];
        } else if EndsWith(markdown, "\n") {
          markdown := markdown[..|markdown| - 1];
        }
      } else if isNewLine {
        markdown := markdown + trimmedText;
      } else {
        markdown := markdown + text;
      }
    }

    method WritePageEnd()
      modifies this
      ensures State() == AfterPageEnd(old(State()))
    {
      if contentStarted && !contentEnded {
        markdown := markdown + "\n\n";
      }
      lastY := NoPosition;
      lastFontSize := NoPosition;
    }

    method GetMarkdownResult() returns (r: string)
      ensures r == Trim(markdown)
      ensures r == [] || (!IsTrimmable(r[0]) && !IsTrimmable(r[|r| - 1]))
    {
      r := Trim(markdown);
    }

    /** `getText`: replays the extractor's callbacks in order and returns the trimmed buffer. */
    method GetText(events: seq<LayoutEvent>) returns (r: string)
      modifies this
      ensures State() == Run(old(State()), events)
      ensures r == Trim(Run(old(State()), events).markdown)
    {
      var i := 0;
      while i < |events|
        invariant 0 <= i <= |events|
        invariant Run(old(State()), events) == Run(State(), events[i..])
      {
        ghost var before := State();
        assert events[i..][0] == events[i] && events[i..][1..] == events[i + 1..];
        assert Run(before, events[i..]) == Run(Apply(before, events[i]), events[i + 1..]);
        if events[i].WriteText? {
          WriteString(events[i].text, events[i].positions);
        } else {
          WritePageEnd();
        }
        assert State() == Apply(before, events[i]);
        i := i + 1;
      }
      r := GetMarkdownResult();
    }
  }
}
