/** What the default settings do with long titles: a two-line document, a title of `n` characters over one body
    line of `m` characters, shows for which lengths of the heading path the chunker does not end or loses text. */
module LongTitles {
  import opened IndexContent
  import opened Options
  import opened PdfParser
  import opened Chunker
  import opened ManualText
  import opened Text

  function Repeat(c: char, n: nat): (s: string)
    ensures |s| == n && forall i :: 0 <= i < n ==> s[i] == c
  {
    seq(n, i => c)
  }

  function TwoLines(n: nat, m: nat): seq<Line> { [Line(1, Repeat('T', n), 30.0), Line(1, Repeat('b', m), 10.0)] }

  /** The only section of the document. */
  function BodySection(n: nat, m: nat): Section {
    Section(INFO_HEADING, 1, Repeat('b', m) + "\n", [Repeat('T', n), INFO_HEADING])
  }

  // ---------------------------------------------------------------- parsing the document

  lemma OneLine(a: Line, size: real)
    ensures Weight([a], size) == (if a.size == size then |a.text| else 0) && Sizes([a]) == [a.size]
  {
    assert [a][..0] == [];
  }

  lemma OtherLine(a: Line, b: Line, size: real)
    ensures Weight([a, b], size) == Weight([a], size) + (if b.size == size then |b.text| else 0)
    ensures a.size != b.size ==> Sizes([a, b]) == [a.size, b.size]
    ensures MaxSize([a, b]) == if a.size >= b.size then a.size else b.size
  {
    assert [a, b][..1] == [a] && [a, b][1..] == [b];
    OneLine(a, size);
  }

  lemma TwoSizes(n: nat, m: nat)
    requires n < m
    ensures BodySize(TwoLines(n, m)) == 10.0 && MaxSize(TwoLines(n, m)) == 30.0
  {
    var a, b := TwoLines(n, m)[0], TwoLines(n, m)[1];
    assert TwoLines(n, m) == [a, b];
    OneLine(a, 10.0);
    OneLine(a, 30.0);
    OtherLine(a, b, 10.0);
    OtherLine(a, b, 30.0);
    var sizes := [30.0, 10.0];
    assert Sizes(TwoLines(n, m)) == sizes && sizes[..1] == [30.0];
    assert Heaviest(TwoLines(n, m), [30.0]) == 30.0;
  }

  lemma TwoLinesTitle(n: nat, m: nat)
    requires 0 < n < m
    ensures
      var lines := TwoLines(n, m);
      && TitleText(lines, TitleFloor(lines)) == Repeat('T', n)
      && Untitled(lines, TitleFloor(lines)) == [lines[1]] && HeadingMin(lines) == 11.5
  {
    TwoSizes(n, m);
    var lines := TwoLines(n, m);
    assert lines[..1] == [lines[0]] && [lines[0]][..0] == [];
    assert IsTitleLine(TitleFloor(lines), lines[0]);
    assert TitleIndex(lines, TitleFloor(lines)) == 0;
    assert lines[..0] + lines[1..] == [lines[1]];
  }

  /** A single line that is no heading is a section of its own. */
  lemma OneSection(line: Line, headingMin: real)
    requires line.size < headingMin
    ensures ToSections(Groups([line], headingMin)) == [Section(INFO_HEADING, line.page, line.text + "\n", [])]
  {
    assert [line][..0] == [] && Groups([], headingMin) == [];
    assert Groups([line], headingMin) == [Group(None, [line])];
    assert BodyText([]) == "" && BodyText([line]) == "" + line.text + "\n";
    assert "" + line.text == line.text;
  }

  lemma TwoLinesSections(n: nat, m: nat)
    requires 0 < n < m
    ensures MainSections(TwoLines(n, m)) == [Section(INFO_HEADING, 1, Repeat('b', m) + "\n", [])]
  {
    TwoLinesTitle(n, m);
    OneSection(TwoLines(n, m)[1], 11.5);
  }

  lemma BodyParagraph(m: nat)
    requires m > 0
    ensures Paragraphs(Repeat('b', m) + "\n") == [Repeat('b', m)]
  {
    var p := Repeat('b', m);
    BodyLine(p, m);
    StripParagraph(p);
    OneParagraph(p);
  }

  lemma OneParagraph(p: string)
    requires p != "" && Strip(p) == p
    ensures NonBlank([p]) == [p]
  {
    assert [p][1..] == [] && NonBlank([]) == [];
    assert NonBlank([p]) == [p] + NonBlank([]) == [p];
  }

  lemma BodyLine(p: string, m: nat)
    requires p == Repeat('b', m) && m > 0
    ensures SplitLines(p + "\n") == [p]
  {
    var text := p + "\n";
    assert text[m] == '\n' && forall i :: 0 <= i < m ==> text[i] == 'b';
    assert FirstBreak(text) == m && BreakWidth(text, m) == 1;
    assert text[..m] == p && text[m + 1..] == "";
    assert [p] + [] == [p];
  }

  lemma TwoLinesParse(n: nat, m: nat, stem: string)
    requires 0 < n < m
    ensures Collected(TwoLines(n, m))
    ensures Parse(TwoLines(n, m), stem).sections == [BodySection(n, m)]
  {
    TwoLinesTitle(n, m);
    TwoLinesSections(n, m);
    ParsedSections(TwoLines(n, m), stem);
    PathOfOne(Section(INFO_HEADING, 1, Repeat('b', m) + "\n", []), Repeat('T', n));
  }

  lemma ParsedSections(lines: seq<Line>, stem: string)
    requires Collected(lines) && lines != []
    ensures Parse(lines, stem).sections == WithPaths(MainSections(lines), TitleText(lines, TitleFloor(lines)))
  {
    MergeFallbackUnreachable(lines);
  }

  lemma PathOfOne(section: Section, title: string)
    requires title != ""
    ensures WithPaths([section], title) == [section.(path := [title, section.heading])]
  {
  }

  // ---------------------------------------------------------------- splitting its body

  lemma PathLength(n: nat, m: nat)
    ensures |HeadingText(BodySection(n, m))| == n + 8
    ensures Budget(BodySection(n, m), CHUNK_MAX_CHARS) == CHUNK_MAX_CHARS - 3 - (n + 8)
  {
    var title := Repeat('T', n);
    assert BodySection(n, m).path == [title, INFO_HEADING] && [title, INFO_HEADING][1..] == [INFO_HEADING];
    assert Join(" > ", [INFO_HEADING]) == INFO_HEADING;
    assert Join(" > ", [title, INFO_HEADING]) == title + " > " + INFO_HEADING;
    assert |INFO_HEADING| == 5;
  }

  /** A body of one long paragraph is hard-split right away. */
  lemma FirstParagraph(m: nat, max: int, overlap: nat)
    requires m > 0 && m > max
    ensures BodyEnds(Repeat('b', m) + "\n", max, overlap) <==> Splits(max, overlap)
    ensures BodyLoses(Repeat('b', m) + "\n", max, overlap) <==> DropsInk(Repeat('b', m), max, overlap)
  {
    var p := Repeat('b', m);
    BodyParagraph(m);
    assert [p][..0] == [] && PackAll([], max, overlap) == EMPTY && Flush(EMPTY) == EMPTY;
    assert Restart(EMPTY, p, overlap).current == p;
    assert AddEnds(EMPTY, p, max, overlap) <==> Splits(max, overlap);
    assert LosesIn([p], 0, max, overlap) <==> DropsInk(p, max, overlap);
  }

  lemma BodyDrops(m: nat, max: int, overlap: nat)
    requires m > overlap
    ensures DropsInk(Repeat('b', m), max, overlap) <==> 0 < max < overlap && overlap <= 2 * max
  {
    if 0 < max < overlap && overlap <= 2 * max {
      var gap := Repeat('b', m)[max..m - (overlap - max)];
      assert gap[0] == 'b';
      InkBlank(gap);
    }
  }

  /** What the chunker does with the only section. */
  lemma BodySectionChunks(n: nat, m: nat)
    requires m > CHUNK_MAX_CHARS
    ensures
      var sections, path := [BodySection(n, m)], n + 8;
      && (ChunkingEnds(sections, CHUNK_MAX_CHARS, CHUNK_OVERLAP_CHARS) <==> path != 747 && path <= 822)
      && (ChunkingLoses(sections, CHUNK_MAX_CHARS, CHUNK_OVERLAP_CHARS) <==> 748 <= path <= 822)
  {
    var section := BodySection(n, m);
    PathLength(n, m);
    var max := Budget(section, CHUNK_MAX_CHARS);
    FirstParagraph(m, max, CHUNK_OVERLAP_CHARS);
    BodyDrops(m, max, CHUNK_OVERLAP_CHARS);
    assert [section][0] == section;
  }

  /** At the default settings, for a body that reaches the hard split: heading paths up to 746 characters are
      chunked without loss, with 747 characters the chunker does not end, with 748 to 822 it loses text, and from
      823 characters on it does not end. */
  lemma LongTitlesBreakChunking(n: nat, m: nat, stem: string)
    requires 0 < n < m && CHUNK_MAX_CHARS < m
    ensures Collected(TwoLines(n, m))
    ensures
      var sections := Parse(TwoLines(n, m), stem).sections;
      var path := |HeadingText(sections[0])|;
      && |sections| == 1 && path == n + 8
      && (ChunkingEnds(sections, CHUNK_MAX_CHARS, CHUNK_OVERLAP_CHARS) <==> path != 747 && path <= 822)
      && (ChunkingEnds(sections, CHUNK_MAX_CHARS, CHUNK_OVERLAP_CHARS) ==>
            var cs := Chunks(sections, CHUNK_MAX_CHARS, CHUNK_OVERLAP_CHARS);
            var ps := DocumentPieces(sections, CHUNK_MAX_CHARS, CHUNK_OVERLAP_CHARS);
            |cs| == |ps| && (Ink(NewTexts(cs, Dups(ps))) != BodyInk(TwoLines(n, m)) <==> 748 <= path <= 822))
  {
    TwoLinesParse(n, m, stem);
    PathLength(n, m);
    BodySectionChunks(n, m);
    if ChunkingEnds([BodySection(n, m)], CHUNK_MAX_CHARS, CHUNK_OVERLAP_CHARS) {
      IngestConservesText(TwoLines(n, m), stem, CHUNK_MAX_CHARS, CHUNK_OVERLAP_CHARS);
    }
  }
}
