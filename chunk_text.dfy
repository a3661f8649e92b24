/**
 * The text clean-up of the knowledge-base chunker: the three regular-expression passes of
 * `postProcessChunk`, the chunk validity test, and the two `String.split` calls that cut the
 * Markdown into sections and an oversized section into paragraphs.
 *
 * The passes are written as left-to-right scanners that make the same match decisions as
 * `java.util.regex` for these three patterns, with `'\n'` as the only line terminator.
 */
module ChunkText {
  import opened Wrappers
  import opened JavaText

  /** The running page head of the glossary PDF: a line starting with it is blanked. */
  const RunningHead: string := "경제금융용어 700선"
  const ParagraphSplitter: string := "\n\n"
  const HeadingPrefix: string := "## "
  const MinValidLength: nat := 24

  /** `\s` of `java.util.regex`: space, tab, newline, vertical tab, form feed, carriage return. */
  predicate IsRegexSpace(c: char) {
    c == ' ' || c == '\t' || c == '\n' || c == '\U{B}' || c == '\U{C}' || c == '\r'
  }

  /** `[ivxlcdm\d]`: a lower-case Roman numeral letter or an ASCII digit. */
  predicate IsPageNumberChar(c: char) {
    c == 'i' || c == 'v' || c == 'x' || c == 'l' || c == 'c' || c == 'd' || c == 'm' || ('0' <= c <= '9')
  }

  function SpaceRun(s: string): (n: nat)
    ensures n <= |s|
    ensures forall k | 0 <= k < n :: IsRegexSpace(s[k])
    ensures n < |s| ==> !IsRegexSpace(s[n])
  {
    if s != [] && IsRegexSpace(s[0]) then 1 + SpaceRun(s[1..]) else 0
  }

  function PageNumberRun(s: string): (n: nat)
    ensures n <= |s|
    ensures forall k | 0 <= k < n :: IsPageNumberChar(s[k])
    ensures n < |s| ==> !IsPageNumberChar(s[n])
  {
    if s != [] && IsPageNumberChar(s[0]) then 1 + PageNumberRun(s[1..]) else 0
  }

  /** Where `$` holds: before a newline or at the end of the input. */
  predicate AtLineEnd(s: string, i: nat)
    requires i <= |s|
  {
    i == |s| || s[i] == '\n'
  }

  /** The length of the first line of `s` (up to, not including, its first newline). */
  function LineLength(s: string): (n: nat)
    ensures n <= |s| && AtLineEnd(s, n)
    ensures forall k | 0 <= k < n :: s[k] != '\n'
  {
    if s == [] || s[0] == '\n' then 0 else 1 + LineLength(s[1..])
  }

  /** The largest `m <= j` at which `$` holds after `from`: how far a greedy `\s*` may reach. */
  function LastLineEndWithin(s: string, from: nat, j: nat): (r: Option<nat>)
    requires from + j <= |s|
    ensures r.Some? ==> r.value <= j && AtLineEnd(s, from + r.value)
    ensures r.Some? ==> forall i | from + r.value < i <= from + j :: !AtLineEnd(s, i)
    ensures r.None? ==> forall i | from <= i <= from + j :: !AtLineEnd(s, i)
    decreases j
  {
    if AtLineEnd(s, from + j) then Some(j)
    else if j == 0 then None
    else LastLineEndWithin(s, from, j - 1)
  }

  /** Pass 1, `(?m)^경제금융용어 700선.*$` replaced by nothing: each line starting with the running head is emptied. */
  function StripRunningHeads(s: string, atLineStart: bool): (r: string)
    ensures |r| <= |s|
    decreases |s|
  {
    if s == [] then []
    else if atLineStart && StartsWith(s, RunningHead) then
      var n := LineLength(s);
      assert s[0] == RunningHead[0];
      StripRunningHeads(s[n..], false)
    else [s[0]] + StripRunningHeads(s[1..], s[0] == '\n')
  }

  /**
   * Pass 2, `(?m)^[ivxlcdm\d]+\s*$` replaced by nothing: a line made only of Roman-numeral
   * letters or digits, with trailing white space, is removed; the greedy `\s*` may also swallow
   * following blank lines up to the last line end it can reach.
   */
  function StripPageNumbers(s: string, atLineStart: bool): (r: string)
    ensures |r| <= |s|
    decreases |s|
  {
    if s == [] then []
    else if atLineStart && IsPageNumberChar(s[0]) then
      var k := PageNumberRun(s);
      var w := SpaceRun(s[k..]);
      match LastLineEndWithin(s, k, w)
      case Some(j) => StripPageNumbers(s[k + j..], s[k + j - 1] == '\n')
      case None => [s[0]] + StripPageNumbers(s[1..], false)
    else [s[0]] + StripPageNumbers(s[1..], s[0] == '\n')
  }

  /**
   * Pass 3, `\n\s*\n+` replaced by `"\n\n"`: a newline, then white space holding at least one
   * more newline, becomes exactly one blank line.
   */
  function CollapseBlankLines(s: string): (r: string)
    ensures |r| <= |s|
    decreases |s|
  {
    if s == [] then []
    else if s[0] == '\n' then
      var w := SpaceRun(s[1..]);
      var last := if w == 0 then None else LastLineEndWithin(s[1..], 0, w - 1);
      match last
      case Some(j) => ParagraphSplitter + CollapseBlankLines(s[j + 2..])
      case None => [s[0]] + CollapseBlankLines(s[1..])
    else [s[0]] + CollapseBlankLines(s[1..])
  }

  /** `postProcessChunk`: the three passes, then `trim`. It only deletes or collapses text. */
  function PostProcess(chunk: string): (r: string)
    ensures |r| <= |chunk|
    ensures r == [] || (!IsTrimmable(r[0]) && !IsTrimmable(r[|r| - 1]))
  {
    Trim(CollapseBlankLines(StripPageNumbers(StripRunningHeads(chunk, true), true)))
  }

  /** `isValidChunk`: longer than 24 characters and starting with a level-2 heading. */
  predicate IsValidChunk(chunk: string) {
    |chunk| > MinValidLength && StartsWith(chunk, HeadingPrefix)
  }

  /** The split points of `(?m)(?=\n##\s)`: a newline followed by `##` and a white-space character. */
  predicate HeadingAt(s: string, p: nat) {
    p + 4 <= |s| && s[p] == '\n' && s[p + 1] == '#' && s[p + 2] == '#' && IsRegexSpace(s[p + 3])
  }

  /** The first split point at or after `from`, skipping position 0 (a zero-width match there yields no empty piece). */
  function NextHeading(s: string, from: nat): (r: Option<nat>)
    requires 1 <= from
    ensures r.Some? ==> from <= r.value < |s| && HeadingAt(s, r.value)
    ensures r.Some? ==> forall p | from <= p < r.value :: !HeadingAt(s, p)
    ensures r.None? ==> forall p | from <= p < |s| :: !HeadingAt(s, p)
    decreases |s| - from
  {
    if from >= |s| then None
    else if HeadingAt(s, from) then Some(from)
    else NextHeading(s, from + 1)
  }

  /** `markdown.split("(?m)(?=\n##\\s)")`: the text cut just before every heading line. */
  function SplitSections(s: string): (r: seq<string>)
    ensures |r| >= 1
    ensures StartsWith(s, r[0])
    ensures StartsWith(s, "\n##") ==> StartsWith(r[0], "\n##")
    ensures forall k | 1 <= k < |r| :: StartsWith(r[k], "\n##")
    decreases |s|
  {
    match NextHeading(s, 1)
    case None => [s]
    case Some(p) => [s[..p]] + SplitSections(s[p..])
  }

  function Concat(parts: seq<string>): string {
    if parts == [] then [] else parts[0] + Concat(parts[1..])
  }

  /** The sections put back together give the whole Markdown: the split loses nothing. */
  lemma {:induction false} SectionsCoverText(s: string)
    ensures Concat(SplitSections(s)) == s
    decreases |s|
  {
    match NextHeading(s, 1)
    case None =>
    case Some(p) =>
      SectionsCoverText(s[p..]);
      assert s[..p] + s[p..] == s;
  }

  predicate SplitterAt(s: string, p: nat) {
    p + 2 <= |s| && s[p] == '\n' && s[p + 1] == '\n'
  }

  /** The first occurrence of the paragraph separator, searching from `from`. */
  function NextSplitter(s: string, from: nat): (r: Option<nat>)
    ensures r.Some? ==> from <= r.value && SplitterAt(s, r.value)
    ensures r.None? ==> forall p | from <= p :: !SplitterAt(s, p)
    decreases |s| - from
  {
    if from + 2 > |s| then None
    else if SplitterAt(s, from) then Some(from)
    else NextSplitter(s, from + 1)
  }

  /** The pieces between successive non-overlapping separators, left to right. */
  function SplitOnSplitter(s: string): (r: seq<string>)
    ensures |r| >= 1
    decreases |s|
  {
    match NextSplitter(s, 0)
    case None => [s]
    case Some(p) => [s[..p]] + SplitOnSplitter(s[p + 2..])
  }

  /** Joining the pieces with the separator gives back the text. */
  lemma {:induction false} SplitOnSplitterJoins(s: string)
    ensures Join(SplitOnSplitter(s), ParagraphSplitter) == s
    decreases |s|
  {
    match NextSplitter(s, 0)
    case None =>
    case Some(p) =>
      var tail := s[p + 2..];
      var rest := SplitOnSplitter(tail);
      assert SplitOnSplitter(s) == [s[..p]] + rest;
      JoinCons(s[..p], rest, ParagraphSplitter);
      SplitOnSplitterJoins(tail);
      assert s[p..p + 2] == ParagraphSplitter;
      assert s[..p] + ParagraphSplitter + tail == s;
  }

  function DropTrailingEmpty(parts: seq<string>): (r: seq<string>)
    ensures |r| <= |parts| && r == parts[..|r|]
    ensures r == [] || r[|r| - 1] != []
    ensures forall k | |r| <= k < |parts| :: parts[k] == []
  {
    if parts == [] then []
    else if parts[|parts| - 1] == [] then DropTrailingEmpty(parts[..|parts| - 1])
    else parts
  }

  /** `s.split("\n\n")` with limit 0: the text itself when the separator does not occur, otherwise the pieces without trailing empty ones. */
  function SplitParagraphs(s: string): (r: seq<string>)
    ensures NextSplitter(s, 0).None? ==> r == [s]
    ensures NextSplitter(s, 0).Some? ==> r == DropTrailingEmpty(SplitOnSplitter(s))
  {
    match NextSplitter(s, 0)
    case None => [s]
    case Some(_) => DropTrailingEmpty(SplitOnSplitter(s))
  }
}
