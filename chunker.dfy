/**
 * Chunking of the parsed Markdown in `initializeRagData`: sections are cut before every
 * heading, an oversized section is re-packed paragraph by paragraph under the length limit,
 * every piece is post-processed and validated, and appendix chunks are filtered out.
 *
 * The paragraph packing is described by `Groups`, which says which paragraphs share a
 * sub-chunk; `Assemble` gives a sub-chunk's text. `ChunkMarkdown` and `PackOversized` are the
 * loops of the source, proved to compute `ChunksOf` and `Pack`. Every chunk function takes a
 * `clamp` flag: `false` is the program as written, whose re-packed sub-chunks are never cut,
 * and `true` is the corrected pipeline that also cuts them to the limit.
 */
module Chunker {
  import opened JavaText
  import opened ChunkText
  import opened Wrappers

  const MaxChunkCharLimit: nat := 10000
  const AppendixAbc: string := "## ABC"
  const AppendixContributors: string := "## 경제금융용어 700선  집필자"

  /** A sub-chunk's text: the section title, then each of its paragraphs after a blank line. */
  function Assemble(title: string, group: seq<string>): (r: string)
    ensures StartsWith(r, title)
    ensures group == [] ==> r == title
    decreases |group|
  {
    if group == [] then title
    else Assemble(title, group[..|group| - 1]) + ParagraphSplitter + group[|group| - 1]
  }

  lemma AssembleAppend(title: string, group: seq<string>, p: string)
    ensures Assemble(title, group + [p]) == Assemble(title, group) + ParagraphSplitter + p
  {
    assert (group + [p])[..|group|] == group;
  }

  function Flatten(groups: seq<seq<string>>): seq<string> {
    if groups == [] then [] else groups[0] + Flatten(groups[1..])
  }

  /** The non-blank paragraphs, trimmed, in order: what the packing loop does not skip. */
  function Paragraphs(parts: seq<string>): seq<string> {
    if parts == [] then []
    else (if Trim(parts[0]) == [] then [] else [Trim(parts[0])]) + Paragraphs(parts[1..])
  }

  /**
   * The packing loop of an oversized section: `current` holds the paragraphs of the sub-chunk
   * being built. A paragraph joins it only when the text stays within the limit; otherwise the
   * sub-chunk is closed and a new one starts with the title and that paragraph.
   */
  function Groups(title: string, current: seq<string>, rest: seq<string>): (r: seq<seq<string>>)
    ensures |r| >= 1
    decreases |rest|
  {
    if rest == [] then [current]
    else
      var p := Trim(rest[0]);
      if p == [] then Groups(title, current, rest[1..])
      else if |Assemble(title, current)| + |p| + |ParagraphSplitter| > MaxChunkCharLimit then
        [current] + Groups(title, [p], rest[1..])
      else Groups(title, current + [p], rest[1..])
  }

  /** Packing loses no paragraph and reorders none. */
  lemma {:induction false} GroupsKeepParagraphs(title: string, current: seq<string>, rest: seq<string>)
    ensures Flatten(Groups(title, current, rest)) == current + Paragraphs(rest)
    decreases |rest|
  {
    if rest != [] {
      var p := Trim(rest[0]);
      var tail := rest[1..];
      if p == [] {
        assert Paragraphs(rest) == Paragraphs(tail);
        assert Groups(title, current, rest) == Groups(title, current, tail);
        GroupsKeepParagraphs(title, current, tail);
      } else {
        assert Paragraphs(rest) == [p] + Paragraphs(tail);
        if |Assemble(title, current)| + |p| + |ParagraphSplitter| > MaxChunkCharLimit {
          var later := Groups(title, [p], tail);
          assert Groups(title, current, rest) == [current] + later;
          GroupsKeepParagraphs(title, [p], tail);
          assert ([current] + later)[1..] == later;
        } else {
          assert Groups(title, current, rest) == Groups(title, current + [p], tail);
          GroupsKeepParagraphs(title, current + [p], tail);
        }
      }
    }
  }

  /** A sub-chunk grows past the limit only when it holds at most one paragraph. */
  predicate WithinLimitUnlessSingle(title: string, group: seq<string>) {
    |group| <= 1 || |Assemble(title, group)| <= MaxChunkCharLimit
  }

  lemma {:induction false} GroupsRespectLimit(title: string, current: seq<string>, rest: seq<string>)
    requires WithinLimitUnlessSingle(title, current)
    ensures forall g | g in Groups(title, current, rest) :: WithinLimitUnlessSingle(title, g)
    decreases |rest|
  {
    if rest != [] {
      var p := Trim(rest[0]);
      if p == [] {
        GroupsRespectLimit(title, current, rest[1..]);
      } else if |Assemble(title, current)| + |p| + |ParagraphSplitter| > MaxChunkCharLimit {
        GroupsRespectLimit(title, [p], rest[1..]);
      } else {
        AssembleAppend(title, current, p);
        GroupsRespectLimit(title, current + [p], rest[1..]);
      }
    }
  }

  /** Only the first sub-chunk can lack a paragraph (when the very first paragraph overflows). */
  lemma {:induction false} LaterGroupsNonEmpty(title: string, current: seq<string>, rest: seq<string>)
    ensures forall k | 1 <= k < |Groups(title, current, rest)| :: Groups(title, current, rest)[k] != []
    ensures current != [] ==> Groups(title, current, rest)[0] != []
    decreases |rest|
  {
    if rest != [] {
      var p := Trim(rest[0]);
      var tail := rest[1..];
      if p == [] {
        assert Groups(title, current, rest) == Groups(title, current, tail);
        LaterGroupsNonEmpty(title, current, tail);
      } else if |Assemble(title, current)| + |p| + |ParagraphSplitter| > MaxChunkCharLimit {
        var later := Groups(title, [p], tail);
        assert Groups(title, current, rest) == [current] + later;
        LaterGroupsNonEmpty(title, [p], tail);
        ConsGroupNonEmpty(current, later);
      } else {
        assert Groups(title, current, rest) == Groups(title, current + [p], tail);
        LaterGroupsNonEmpty(title, current + [p], tail);
      }
    }
  }

  /** A group put in front of non-empty ones leaves every group after the first non-empty. */
  lemma ConsGroupNonEmpty(current: seq<string>, later: seq<seq<string>>)
    requires |later| >= 1 && forall k | 0 <= k < |later| :: later[k] != []
    ensures forall k | 1 <= k < |[current] + later| :: ([current] + later)[k] != []
    ensures ([current] + later)[0] == current
  {
    assert forall k | 1 <= k < |[current] + later| :: ([current] + later)[k] == later[k - 1];
  }

  /**
   * Closing a sub-chunk: post-process its text and keep it if valid. With `clamp`, a text longer
   * than the limit is first cut to the limit, as the unsplittable-section branch does.
   */
  function Close(text: string, clamp: bool): (r: seq<string>)
    ensures |r| <= 1
    ensures r != [] ==> IsValidChunk(r[0]) && (clamp ==> |r[0]| <= MaxChunkCharLimit)
    ensures r != [] ==> r[0] == PostProcess(if clamp then Take(text, MaxChunkCharLimit) else text)
  {
    var f := PostProcess(if clamp then Take(text, MaxChunkCharLimit) else text);
    if IsValidChunk(f) then [f] else []
  }

  function FlushGroup(title: string, group: seq<string>, clamp: bool): seq<string> {
    Close(Assemble(title, group), clamp)
  }

  function FlushAll(title: string, groups: seq<seq<string>>, clamp: bool): seq<string> {
    if groups == [] then [] else FlushGroup(title, groups[0], clamp) + FlushAll(title, groups[1..], clamp)
  }

  /**
   * The packing loop over the builder's text: the sub-chunks still to be emitted when the
   * builder holds `builder` and the paragraphs `rest` are left.
   */
  function Pack(title: string, builder: string, rest: seq<string>, clamp: bool): seq<string>
    decreases |rest|
  {
    if rest == [] then Close(builder, clamp)
    else
      var p := Trim(rest[0]);
      if p == [] then Pack(title, builder, rest[1..], clamp)
      else if |builder| + |p| + |ParagraphSplitter| > MaxChunkCharLimit then
        Close(builder, clamp) + Pack(title, title + ParagraphSplitter + p, rest[1..], clamp)
      else Pack(title, builder + ParagraphSplitter + p, rest[1..], clamp)
  }

  /** The loop emits exactly the closed sub-chunks that the grouping describes. */
  lemma {:induction false} PackClosesGroups(title: string, current: seq<string>, rest: seq<string>, clamp: bool)
    ensures Pack(title, Assemble(title, current), rest, clamp) == FlushAll(title, Groups(title, current, rest), clamp)
    decreases |rest|
  {
    if rest == [] {
      assert [current][1..] == [];
      assert FlushAll(title, [current], clamp) == FlushGroup(title, current, clamp) + [];
    } else {
      var p := Trim(rest[0]);
      if p == [] {
        PackClosesGroups(title, current, rest[1..], clamp);
      } else if |Assemble(title, current)| + |p| + |ParagraphSplitter| > MaxChunkCharLimit {
        AssembleAppend(title, [], p);
        assert [] + [p] == [p];
        PackClosesGroups(title, [p], rest[1..], clamp);
        var later := Groups(title, [p], rest[1..]);
        assert Groups(title, current, rest) == [current] + later;
        assert ([current] + later)[1..] == later;
      } else {
        AssembleAppend(title, current, p);
        PackClosesGroups(title, current + [p], rest[1..], clamp);
      }
    }
  }

  /** Every emitted sub-chunk is valid, and with `clamp` within the limit. */
  lemma ClosedChunkValid(text: string, clamp: bool)
    ensures forall c | c in Close(text, clamp) :: IsValidChunk(c) && (clamp ==> |c| <= MaxChunkCharLimit)
  {
  }

  lemma {:induction false} PackedChunksValid(title: string, builder: string, rest: seq<string>, clamp: bool)
    ensures forall c | c in Pack(title, builder, rest, clamp) :: IsValidChunk(c) && (clamp ==> |c| <= MaxChunkCharLimit)
    decreases |rest|
  {
    ClosedChunkValid(builder, clamp);
    if rest != [] {
      var p := Trim(rest[0]);
      if p == [] {
        PackedChunksValid(title, builder, rest[1..], clamp);
      } else if |builder| + |p| + |ParagraphSplitter| > MaxChunkCharLimit {
        var next := title + ParagraphSplitter + p;
        PackedChunksValid(title, next, rest[1..], clamp);
        assert Pack(title, builder, rest, clamp) == Close(builder, clamp) + Pack(title, next, rest[1..], clamp);
      } else {
        PackedChunksValid(title, builder + ParagraphSplitter + p, rest[1..], clamp);
      }
    }
  }

  /**
   * The chunks of one raw section. An oversized section that splits into paragraphs is packed;
   * one that does not is cut to the limit and kept unchecked; any other non-empty section
   * becomes one chunk when valid after post-processing.
   */
  function SectionChunks(raw: string, clamp: bool): seq<string> {
    CleanedChunks(Trim(raw), clamp)
  }

  /** The chunks of a section once `trim` has been applied to it. */
  function CleanedChunks(cleaned: string, clamp: bool): seq<string> {
    if |cleaned| > MaxChunkCharLimit then
      var sub := SplitParagraphs(cleaned);
      if |sub| > 1 then Pack(sub[0], sub[0], sub[1..], clamp)
      else [PostProcess(cleaned[..MaxChunkCharLimit])]
    else if cleaned != [] then
      var f := PostProcess(cleaned);
      if IsValidChunk(f) then [f] else []
    else []
  }

  /** An oversized section without a blank line is cut to the limit and kept, valid or not. */
  lemma ForcedCutIsKept(raw: string, clamp: bool)
    requires |Trim(raw)| > MaxChunkCharLimit && |SplitParagraphs(Trim(raw))| <= 1
    ensures SectionChunks(raw, clamp) == [PostProcess(Trim(raw)[..MaxChunkCharLimit])]
  {
    var cleaned := Trim(raw);
    assert CleanedChunks(cleaned, clamp) == [PostProcess(cleaned[..MaxChunkCharLimit])];
  }

  /** Apart from the forced cut, every chunk a section contributes is valid. */
  lemma SectionChunksValid(raw: string, clamp: bool)
    requires |Trim(raw)| <= MaxChunkCharLimit || |SplitParagraphs(Trim(raw))| > 1
    ensures forall c | c in SectionChunks(raw, clamp) :: IsValidChunk(c)
  {
    CleanedChunksValid(Trim(raw), clamp);
  }

  lemma CleanedChunksValid(cleaned: string, clamp: bool)
    requires |cleaned| <= MaxChunkCharLimit || |SplitParagraphs(cleaned)| > 1
    ensures forall c | c in CleanedChunks(cleaned, clamp) :: IsValidChunk(c)
  {
    if |cleaned| > MaxChunkCharLimit {
      var sub := SplitParagraphs(cleaned);
      PackedChunksValid(sub[0], sub[0], sub[1..], clamp);
    }
  }

  /** A section within the limit contributes at most one chunk. */
  lemma ShortSectionOneChunk(raw: string, clamp: bool)
    requires |Trim(raw)| <= MaxChunkCharLimit
    ensures |SectionChunks(raw, clamp)| <= 1
  {
  }

  /** With the limit enforced, no chunk of a section exceeds it. */
  lemma SectionChunksWithinLimit(raw: string)
    ensures forall c | c in SectionChunks(raw, true) :: |c| <= MaxChunkCharLimit
  {
    CleanedChunksWithinLimit(Trim(raw));
  }

  lemma CleanedChunksWithinLimit(cleaned: string)
    ensures forall c | c in CleanedChunks(cleaned, true) :: |c| <= MaxChunkCharLimit
  {
    if |cleaned| > MaxChunkCharLimit {
      var sub := SplitParagraphs(cleaned);
      if |sub| > 1 {
        PackedChunksValid(sub[0], sub[0], sub[1..], true);
      }
    }
  }

  function AllChunks(sections: seq<string>, clamp: bool): seq<string> {
    if sections == [] then []
    else AllChunks(sections[..|sections| - 1], clamp) + SectionChunks(sections[|sections| - 1], clamp)
  }

  lemma {:induction false} AllChunksWithinLimit(sections: seq<string>)
    ensures forall c | c in AllChunks(sections, true) :: |c| <= MaxChunkCharLimit
    decreases |sections|
  {
    if sections != [] {
      AllChunksWithinLimit(sections[..|sections| - 1]);
      SectionChunksWithinLimit(sections[|sections| - 1]);
    }
  }

  /** `chunk` is one of the chunks of some section among `sections`. */
  predicate FromSomeSection(chunk: string, sections: seq<string>, clamp: bool) {
    exists i | 0 <= i < |sections| :: chunk in SectionChunks(sections[i], clamp)
  }

  /** Every chunk of the document comes from one of its sections. */
  lemma {:induction false} AllChunksFromSections(sections: seq<string>, clamp: bool)
    ensures forall c | c in AllChunks(sections, clamp) :: FromSomeSection(c, sections, clamp)
    decreases |sections|
  {
    if sections != [] {
      var n := |sections| - 1;
      var init := sections[..n];
      AllChunksFromSections(init, clamp);
      assert AllChunks(sections, clamp) == AllChunks(init, clamp) + SectionChunks(sections[n], clamp);
      forall c | c in AllChunks(sections, clamp)
        ensures FromSomeSection(c, sections, clamp)
      {
        if c in AllChunks(init, clamp) {
          FromPrefix(c, sections, n, clamp);
        } else {
          assert c in SectionChunks(sections[n], clamp);
        }
      }
    }
  }

  lemma FromPrefix(chunk: string, sections: seq<string>, k: nat, clamp: bool)
    requires k <= |sections| && FromSomeSection(chunk, sections[..k], clamp)
    ensures FromSomeSection(chunk, sections, clamp)
  {
    var i :| 0 <= i < k && chunk in SectionChunks(sections[..k][i], clamp);
    assert sections[..k][i] == sections[i];
  }

  /** As written, every closed sub-chunk is the post-processed text of one of the groups. */
  lemma {:induction false} FlushAllFrom(title: string, groups: seq<seq<string>>)
    ensures forall c | c in FlushAll(title, groups, false) :: exists g | g in groups :: c == PostProcess(Assemble(title, g))
    decreases |groups|
  {
    if groups != [] {
      FlushAllFrom(title, groups[1..]);
      var head := FlushGroup(title, groups[0], false);
      assert FlushAll(title, groups, false) == head + FlushAll(title, groups[1..], false);
      forall c | c in FlushAll(title, groups, false)
        ensures exists g | g in groups :: c == PostProcess(Assemble(title, g))
      {
        if c in head {
          CloseAsWritten(Assemble(title, groups[0]));
          assert c == PostProcess(Assemble(title, groups[0]));
        } else {
          var g :| g in groups[1..] && c == PostProcess(Assemble(title, g));
          assert g in groups;
        }
      }
    }
  }

  /**
   * As written, a re-packed sub-chunk exceeds the limit only when it is the title with at most
   * one paragraph: every sub-chunk of two or more paragraphs stays within it.
   */
  lemma PackOverLimitOnlySingle(title: string, rest: seq<string>)
    ensures forall c | c in Pack(title, title, rest, false) && |c| > MaxChunkCharLimit ::
              exists g | g in Groups(title, [], rest) :: |g| <= 1 && c == PostProcess(Assemble(title, g))
  {
    var groups := Groups(title, [], rest);
    PackClosesGroups(title, [], rest, false);
    GroupsRespectLimit(title, [], rest);
    FlushAllFrom(title, groups);
    forall c | c in Pack(title, title, rest, false) && |c| > MaxChunkCharLimit
      ensures exists g | g in groups :: |g| <= 1 && c == PostProcess(Assemble(title, g))
    {
      var g :| g in groups && c == PostProcess(Assemble(title, g));
      assert WithinLimitUnlessSingle(title, g);
    }
  }

  /**
   * As written, a chunk of a section exceeds the limit only when the section was re-packed and
   * the chunk is its title with at most one paragraph.
   */
  lemma SectionOverLimitOnlySingle(raw: string)
    ensures forall c | c in SectionChunks(raw, false) && |c| > MaxChunkCharLimit ::
              var sub := SplitParagraphs(Trim(raw));
              |sub| > 1 && exists g | g in Groups(sub[0], [], sub[1..]) :: |g| <= 1 && c == PostProcess(Assemble(sub[0], g))
  {
    CleanedOverLimitOnlySingle(Trim(raw));
  }

  lemma CleanedOverLimitOnlySingle(cleaned: string)
    ensures forall c | c in CleanedChunks(cleaned, false) && |c| > MaxChunkCharLimit ::
              var sub := SplitParagraphs(cleaned);
              |sub| > 1 && exists g | g in Groups(sub[0], [], sub[1..]) :: |g| <= 1 && c == PostProcess(Assemble(sub[0], g))
  {
    var sub := SplitParagraphs(cleaned);
    if |cleaned| > MaxChunkCharLimit && |sub| > 1 {
      PackOverLimitOnlySingle(sub[0], sub[1..]);
    }
  }

  /** The correction changes nothing for a sub-chunk within the limit. */
  lemma CloseAgreesWithinLimit(text: string)
    requires |text| <= MaxChunkCharLimit
    ensures Close(text, true) == Close(text, false)
  {
    assert Take(text, MaxChunkCharLimit) == text;
  }

  lemma CloseAsWritten(text: string)
    ensures forall c | c in Close(text, false) :: c == PostProcess(text)
  {
  }

  predicate IsAppendixChunk(chunk: string) {
    StartsWith(chunk, AppendixAbc) || StartsWith(chunk, AppendixContributors)
  }

  /** The final stream filter: appendix chunks are dropped, the rest keep their order. */
  function DropAppendix(chunks: seq<string>): (r: seq<string>)
    ensures |r| <= |chunks|
    ensures forall c | c in r :: c in chunks && !IsAppendixChunk(c)
    ensures forall c | c in chunks && !IsAppendixChunk(c) :: c in r
  {
    if chunks == [] then []
    else (if IsAppendixChunk(chunks[0]) then [] else [chunks[0]]) + DropAppendix(chunks[1..])
  }

  /**
   * The chunks `initializeRagData` embeds for a parsed document: `ChunksOf(markdown, false)` as
   * written, `ChunksOf(markdown, true)` with every sub-chunk cut to the limit.
   */
  function ChunksOf(markdown: string, clamp: bool): seq<string> {
    DropAppendix(AllChunks(SplitSections(markdown), clamp))
  }

  /** Every embedded chunk is a chunk of one section of the document and is not appendix material. */
  lemma ChunksOfFromSections(markdown: string, clamp: bool)
    ensures forall c | c in ChunksOf(markdown, clamp) :: !IsAppendixChunk(c) && FromSomeSection(c, SplitSections(markdown), clamp)
  {
    var sections := SplitSections(markdown);
    AllChunksFromSections(sections, clamp);
    assert ChunksOf(markdown, clamp) == DropAppendix(AllChunks(sections, clamp));
  }

  /** In the corrected pipeline every embedded chunk respects the length limit and is not appendix material. */
  lemma ChunksWithinLimit(markdown: string)
    ensures forall c | c in ChunksOf(markdown, true) :: |c| <= MaxChunkCharLimit && !IsAppendixChunk(c)
  {
    AllChunksWithinLimit(SplitSections(markdown));
  }

  /** The section text of the counterexample: a short title and one paragraph of `n` letters. */
  function Repeat(c: char, n: nat): (r: string)
    ensures |r| == n
    ensures forall k | 0 <= k < n :: r[k] == c
  {
    if n == 0 then [] else [c] + Repeat(c, n - 1)
  }

  /** A heading line short enough to be dropped on its own, with no line break and no running head in it. */
  predicate ShortTitle(title: string) {
    StartsWith(title, HeadingPrefix) && |title| <= MinValidLength && !IsTrimmable(title[|title| - 1])
    && forall k | 0 <= k < |title| :: title[k] != '\n' && title[k] != RunningHead[0]
  }

  lemma SampleTitleIsShort()
    ensures ShortTitle("## HDRI")
  {
  }

  /** No running head starts anywhere in `s`: pass 1 changes nothing. */
  lemma {:induction false} NoRunningHeadNoChange(s: string, atLineStart: bool)
    requires forall k | 0 <= k < |s| :: s[k] != RunningHead[0]
    ensures StripRunningHeads(s, atLineStart) == s
    decreases |s|
  {
    if s != [] {
      NoRunningHeadNoChange(s[1..], s[0] == '\n');
      assert [s[0]] + s[1..] == s;
    }
  }

  /** No line of `s` starts with a page-number character: pass 2 changes nothing. */
  lemma {:induction false} NoPageNumberNoChange(s: string, atLineStart: bool)
    requires atLineStart && s != [] ==> !IsPageNumberChar(s[0])
    requires forall k | 1 <= k < |s| :: s[k - 1] == '\n' ==> !IsPageNumberChar(s[k])
    ensures StripPageNumbers(s, atLineStart) == s
    decreases |s|
  {
    if s != [] {
      NoPageNumberNoChange(s[1..], s[0] == '\n');
      assert [s[0]] + s[1..] == s;
    }
  }

  /** Pass 3 leaves a newline-free prefix in place. */
  lemma {:induction false} CollapseSkipsLine(t: string, u: string)
    requires forall k | 0 <= k < |t| :: t[k] != '\n'
    ensures CollapseBlankLines(t + u) == t + CollapseBlankLines(u)
    decreases |t|
  {
    if t != [] {
      var s := t + u;
      assert s[0] == t[0] && s[0] != '\n';
      assert s[1..] == t[1..] + u;
      CollapseKeepsOther(s);
      CollapseSkipsLine(t[1..], u);
      assert [t[0]] + t[1..] == t;
    } else {
      assert t + u == u;
    }
  }

  /** Pass 3 copies a leading character other than a newline. */
  lemma CollapseKeepsOther(s: string)
    requires s != [] && s[0] != '\n'
    ensures CollapseBlankLines(s) == [s[0]] + CollapseBlankLines(s[1..])
  {
  }

  /** The blank line between the title and the paragraph is a single one: pass 3 keeps it. */
  lemma CollapseKeepsBreak(p: string)
    requires p != [] && p[0] == 'a'
    ensures CollapseBlankLines(ParagraphSplitter + p) == ParagraphSplitter + CollapseBlankLines(p)
  {
    var s := ParagraphSplitter + p;
    assert s[0] == '\n';
    assert s[1..] == "\n" + p;
    assert s[1..][1..] == p;
    assert SpaceRun(p) == 0;
    assert SpaceRun(s[1..]) == 1;
    assert AtLineEnd(s[1..], 0);
    assert LastLineEndWithin(s[1..], 0, 0) == Some(0);
    assert s[2..] == p;
  }

  lemma CollapseKeepsSample(title: string, n: nat)
    requires ShortTitle(title) && n > 0
    ensures CollapseBlankLines(title + ParagraphSplitter + Repeat('a', n)) == title + ParagraphSplitter + Repeat('a', n)
  {
    var p := Repeat('a', n);
    CollapseSkipsLine(title, ParagraphSplitter + p);
    CollapseKeepsBreak(p);
    CollapseSkipsLine(p, []);
    assert p + [] == p;
    assert title + ParagraphSplitter + p == title + (ParagraphSplitter + p);
  }

  lemma HeadsKeepSample(title: string, n: nat)
    requires ShortTitle(title)
    ensures StripRunningHeads(title + ParagraphSplitter + Repeat('a', n), true) == title + ParagraphSplitter + Repeat('a', n)
  {
    var p := Repeat('a', n);
    var w := title + ParagraphSplitter + p;
    forall k | 0 <= k < |w| ensures w[k] != RunningHead[0] {
      if k < |title| { assert w[k] == title[k]; }
      else if k >= |title| + 2 { assert w[k] == p[k - |title| - 2]; }
    }
    NoRunningHeadNoChange(w, true);
  }

  lemma PageNumbersKeepSample(title: string, n: nat)
    requires ShortTitle(title)
    ensures StripPageNumbers(title + ParagraphSplitter + Repeat('a', n), true) == title + ParagraphSplitter + Repeat('a', n)
  {
    var p := Repeat('a', n);
    var w := title + ParagraphSplitter + p;
    assert w[0] == '#';
    forall k | 1 <= k < |w| && w[k - 1] == '\n' ensures !IsPageNumberChar(w[k]) {
      if k >= |title| + 2 { assert w[k] == p[k - |title| - 2]; }
    }
    NoPageNumberNoChange(w, true);
  }

  lemma PostProcessKeepsSample(title: string, n: nat)
    requires ShortTitle(title) && n > 0
    ensures PostProcess(title + ParagraphSplitter + Repeat('a', n)) == title + ParagraphSplitter + Repeat('a', n)
  {
    var w := title + ParagraphSplitter + Repeat('a', n);
    HeadsKeepSample(title, n);
    PageNumbersKeepSample(title, n);
    CollapseKeepsSample(title, n);
    SampleEnds(title, n);
    PostProcessFixed(w);
  }

  /** The sample starts with the title's `#` and ends with an `a`. */
  lemma SampleEnds(title: string, n: nat)
    requires ShortTitle(title) && n > 0
    ensures var w := title + ParagraphSplitter + Repeat('a', n); w[0] == '#' && w[|w| - 1] == 'a'
  {
    var p := Repeat('a', n);
    assert p[|p| - 1] == 'a';
    assert title[0] == HeadingPrefix[0];
  }

  /** A text every cleaning step leaves alone, and that starts and ends with visible characters, is kept whole. */
  lemma PostProcessFixed(w: string)
    requires StripRunningHeads(w, true) == w && StripPageNumbers(w, true) == w && CollapseBlankLines(w) == w
    requires w != [] && !IsTrimmable(w[0]) && !IsTrimmable(w[|w| - 1])
    ensures PostProcess(w) == w
  {
    TrimKeeps(w);
  }

  /** The sample section splits into its title and its paragraph. */
  lemma SampleParagraphs(title: string, n: nat)
    requires ShortTitle(title) && n > 0
    ensures SplitParagraphs(title + ParagraphSplitter + Repeat('a', n)) == [title, Repeat('a', n)]
  {
    var p := Repeat('a', n);
    var w := title + ParagraphSplitter + p;
    var t := |title|;
    assert SplitterAt(w, t);
    assert forall q | 0 <= q < t :: !SplitterAt(w, q) by {
      forall q | 0 <= q < t ensures !SplitterAt(w, q) {
        assert w[q] == title[q];
      }
    }
    assert NextSplitter(w, 0) == Some(t);
    assert !SplitterAt(p, 0);
    assert NextSplitter(p, 0).None?;
    assert w[..t] == title && w[t + 2..] == p;
    assert SplitOnSplitter(w) == [title, p];
  }

  /** The sample section is oversized and splits into its title and its paragraph, so it is packed. */
  lemma SampleIsPacked(title: string, n: nat)
    requires ShortTitle(title) && n >= MaxChunkCharLimit
    ensures SectionChunks(title + ParagraphSplitter + Repeat('a', n), false)
      == Pack(title, title, [Repeat('a', n)], false)
  {
    var p := Repeat('a', n);
    var w := title + ParagraphSplitter + p;
    assert w[0] == '#' && w[|w| - 1] == 'a';
    TrimKeeps(w);
    SampleParagraphs(title, n);
    assert SplitParagraphs(w)[1..] == [p];
  }

  /** A short title alone is too short to be a valid chunk. */
  lemma ShortTitleIsDropped(title: string, clamp: bool)
    requires ShortTitle(title)
    ensures Close(title, clamp) == []
  {
  }

  lemma SampleIsKept(title: string, n: nat)
    requires ShortTitle(title) && n >= MaxChunkCharLimit
    ensures Close(title + ParagraphSplitter + Repeat('a', n), false) == [title + ParagraphSplitter + Repeat('a', n)]
  {
    var w := title + ParagraphSplitter + Repeat('a', n);
    PostProcessKeepsSample(title, n);
    HeadedTextIsValid(title, ParagraphSplitter, Repeat('a', n));
    CloseKeepsFixedChunk(w);
  }

  /** A text that starts with a heading and is long enough is a valid chunk. */
  lemma HeadedTextIsValid(title: string, middle: string, tail: string)
    requires StartsWith(title, HeadingPrefix) && |title| + |middle| + |tail| > MinValidLength
    ensures IsValidChunk(title + middle + tail)
  {
    var w := title + middle + tail;
    assert w[..|HeadingPrefix|] == title[..|HeadingPrefix|];
  }

  /** A valid chunk that post-processing leaves as it is closes as itself. */
  lemma CloseKeepsFixedChunk(text: string)
    requires PostProcess(text) == text && IsValidChunk(text)
    ensures Close(text, false) == [text]
  {
  }

  /** Packing the sample closes the bare title (too short to keep) and then the whole text. */
  lemma SamplePack(title: string, n: nat)
    requires ShortTitle(title) && n >= MaxChunkCharLimit
    ensures Pack(title, title, [Repeat('a', n)], false) == [title + ParagraphSplitter + Repeat('a', n)]
  {
    var p := Repeat('a', n);
    var w := title + ParagraphSplitter + p;
    assert p[0] == 'a' && p[|p| - 1] == 'a';
    TrimKeeps(p);
    assert [p][0] == p && [p][1..] == [];
    assert |title| + |p| + |ParagraphSplitter| > MaxChunkCharLimit;
    assert Pack(title, w, [], false) == Close(w, false);
    assert Pack(title, title, [p], false) == Close(title, false) + Pack(title, w, [], false);
    ShortTitleIsDropped(title, false);
    SampleIsKept(title, n);
  }

  lemma ConcatAssoc(a: seq<string>, b: seq<string>, c: seq<string>)
    ensures a + (b + c) == (a + b) + c
  {
  }

  /**
   * As written, the packing loop can hand on a sub-chunk longer than the limit: a section made
   * of a short title and one paragraph of at least 10,000 letters comes out whole.
   */
  lemma LongParagraphOverflows(title: string, n: nat)
    requires ShortTitle(title) && n >= MaxChunkCharLimit
    ensures SectionChunks(title + ParagraphSplitter + Repeat('a', n), false) == [title + ParagraphSplitter + Repeat('a', n)]
    ensures |title + ParagraphSplitter + Repeat('a', n)| > MaxChunkCharLimit
  {
    SampleIsPacked(title, n);
    SamplePack(title, n);
  }

  /**
   * Steps 2.3 to 2.6: re-packs the paragraphs of an oversized section under its title, closing
   * each sub-chunk, uncut, through post-processing and validation.
   */
  method PackOversized(subChunks: seq<string>) returns (chunks: seq<string>)
    requires |subChunks| > 1
    ensures chunks == Pack(subChunks[0], subChunks[0], subChunks[1..], false)
  {
    var titleHeader := subChunks[0];
    var builder := titleHeader;
    ghost var all := Pack(titleHeader, titleHeader, subChunks[1..], false);
    chunks := [];
    var i := 1;
    while i < |subChunks|
      invariant 1 <= i <= |subChunks|
      invariant chunks + Pack(titleHeader, builder, subChunks[i..], false) == all
    {
      var paragraph := Trim(subChunks[i]);
      assert subChunks[i..][0] == subChunks[i] && subChunks[i..][1..] == subChunks[i + 1..];
      if paragraph == [] {
        i := i + 1;
        continue;
      }
      if |builder| + |paragraph| + |ParagraphSplitter| > MaxChunkCharLimit {
        var closed := Close(builder, false);
        ConcatAssoc(chunks, closed, Pack(titleHeader, titleHeader + ParagraphSplitter + paragraph, subChunks[i + 1..], false));
        chunks := chunks + closed;
        builder := titleHeader + ParagraphSplitter + paragraph;
      } else {
        builder := builder + ParagraphSplitter + paragraph;
      }
      i := i + 1;
    }
    assert subChunks[i..] == [];
    chunks := chunks + Close(builder, false);
  }

  /** Step 2.1 to 2.8 for one raw section. */
  method ChunkSection(rawChunk: string) returns (part: seq<string>)
    ensures part == SectionChunks(rawChunk, false)
  {
    var cleanedChunk := Trim(rawChunk);
    part := [];
    if |cleanedChunk| > MaxChunkCharLimit {
      var subChunks := SplitParagraphs(cleanedChunk);
      if |subChunks| > 1 {
        part := PackOversized(subChunks);
      } else {
        part := [PostProcess(cleanedChunk[..MaxChunkCharLimit])];
      }
    } else if cleanedChunk != [] {
      var finalChunk := PostProcess(cleanedChunk);
      if IsValidChunk(finalChunk) {
        part := [finalChunk];
      }
    }
  }

  lemma AllChunksStep(sections: seq<string>, i: nat)
    requires i < |sections|
    ensures AllChunks(sections[..i + 1], false) == AllChunks(sections[..i], false) + SectionChunks(sections[i], false)
  {
    assert sections[..i + 1][..i] == sections[..i];
  }

  /** Steps 2 and 3 of `initializeRagData`: the chunks of the parsed Markdown, appendix chunks removed. */
  method ChunkMarkdown(markdownText: string) returns (finalChunks: seq<string>)
    ensures finalChunks == ChunksOf(markdownText, false)
    ensures forall c | c in finalChunks :: !IsAppendixChunk(c)
    ensures forall c | c in finalChunks :: FromSomeSection(c, SplitSections(markdownText), false)
  {
    var rawChunks := SplitSections(markdownText);
    var chunks := ChunkSections(rawChunks);
    finalChunks := DropAppendix(chunks);
    ChunksOfFromSections(markdownText, false);
  }

  /** Step 2: the chunks of every raw section, section after section. */
  method ChunkSections(rawChunks: seq<string>) returns (chunks: seq<string>)
    ensures chunks == AllChunks(rawChunks, false)
  {
    chunks := [];
    var i := 0;
    while i < |rawChunks|
      invariant 0 <= i <= |rawChunks|
      invariant chunks == AllChunks(rawChunks[..i], false)
    {
      AllChunksStep(rawChunks, i);
      var part := ChunkSection(rawChunks[i]);
      chunks := chunks + part;
      i := i + 1;
    }
    assert rawChunks[..i] == rawChunks;
  }
}
