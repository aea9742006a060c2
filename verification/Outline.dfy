/** What parsing makes of a document, described without the parser's passes: which lines are title, headings and body,
    and which section they end up in. */
module Outline {
  import opened Options
  import opened Text
  import opened PdfParser

  /** A heading is set at least 1.5 points larger than the body, has 2 to 80 characters, and among them a digit, a
      Latin letter or a Hangul syllable. */
  predicate ReadsAsHeading(line: Line, body: real) {
    && line.size >= body + 1.5 && 2 <= |line.text| <= 80
    && exists i :: 0 <= i < |line.text| && IsWordChar(line.text[i])
  }

  predicate IsWordChar(c: char) {
    c in "0123456789" || 'a' <= c <= 'z' || 'A' <= c <= 'Z' || '\U{AC00}' <= c <= '\U{D7A3}'
  }

  function LineTexts(lines: seq<Line>): (r: seq<string>)
    ensures |r| == |lines|
  {
    seq(|lines|, i requires 0 <= i < |lines| => lines[i].text)
  }

  /** The text of a section: its body lines, each ended by a line feed. */
  predicate IsTextOf(text: string, body: seq<Line>) {
    text == if body == [] then "" else Join("\n", LineTexts(body)) + "\n"
  }

  /** The section is made of the lines from `a` to before `b`: its heading, unless these lines come before any
      heading, and then lines that are no headings. It stands on the page of its first line. */
  ghost predicate IsSectionOf(s: Section, lines: seq<Line>, a: nat, b: nat, body: real) {
    && a < b <= |lines| && s.page == lines[a].page
    && (if ReadsAsHeading(lines[a], body) then s.heading == lines[a].text && IsTextOf(s.text, lines[a + 1..b])
        else a == 0 && s.heading == "\U{BB38}\U{C11C} \U{C815}\U{BCF4}" && IsTextOf(s.text, lines[a..b]))
    && (forall j :: a < j < b ==> !ReadsAsHeading(lines[j], body))
  }

  /** The sections divide the lines, in order, at `starts`. */
  ghost predicate Divides(starts: seq<nat>, sections: seq<Section>, lines: seq<Line>, body: real) {
    && |starts| == |sections| + 1 && starts[0] == 0 && starts[|sections|] == |lines|
    && (forall i :: 0 <= i < |sections| ==> IsSectionOf(sections[i], lines, starts[i], starts[i + 1], body))
  }

  // ---------------------------------------------------------------- the sections

  lemma HeadingMeans(line: Line, body: real)
    ensures IsHeading(line.text, line.size, body + HEADING_MARGIN_PT) <==> ReadsAsHeading(line, body)
  {
    assert forall c :: IsTextChar(c) <==> IsWordChar(c);
  }

  lemma OneMoreText(text: string, body: seq<Line>, line: Line)
    requires IsTextOf(text, body)
    ensures IsTextOf(text + (line.text + "\n"), body + [line])
  {
    assert LineTexts(body + [line]) == LineTexts(body) + [line.text];
    if body == [] {
      assert LineTexts([line]) == [line.text] && "" + (line.text + "\n") == line.text + "\n";
    } else {
      JoinSnoc("\n", LineTexts(body), line.text);
    }
  }

  /** A section of the first lines is one of all lines. */
  lemma StillSection(s: Section, lines: seq<Line>, line: Line, a: nat, b: nat, body: real)
    requires IsSectionOf(s, lines, a, b, body)
    ensures IsSectionOf(s, lines + [line], a, b, body)
  {
    var more := lines + [line];
    assert more[a..b] == lines[a..b] && more[a + 1..b] == lines[a + 1..b];
    assert forall j :: a <= j < b ==> more[j] == lines[j];
  }

  lemma LongerSection(s: Section, lines: seq<Line>, line: Line, a: nat, body: real)
    requires IsSectionOf(s, lines, a, |lines|, body) && !ReadsAsHeading(line, body)
    ensures IsSectionOf(s.(text := s.text + (line.text + "\n")), lines + [line], a, |lines| + 1, body)
  {
    var more := lines + [line];
    var start := if ReadsAsHeading(lines[a], body) then a + 1 else a;
    assert lines[start..|lines|] == lines[start..];
    OneMoreText(s.text, lines[start..], line);
    assert more[start..|lines| + 1] == lines[start..] + [line];
    assert forall j :: a <= j < |lines| ==> more[j] == lines[j];
  }

  lemma NewSection(s: Section, lines: seq<Line>, line: Line, body: real)
    requires s.page == line.page
    requires if ReadsAsHeading(line, body) then s.heading == line.text && s.text == ""
             else lines == [] && s.heading == INFO_HEADING && s.text == line.text + "\n"
    ensures IsSectionOf(s, lines + [line], |lines|, |lines| + 1, body)
  {
    var more, n := lines + [line], |lines|;
    assert more[n] == line && more[n + 1..n + 1] == [] && more[n..n + 1] == [line];
    assert LineTexts([line]) == [line.text];
  }

  lemma AppendDivides(starts: seq<nat>, sections: seq<Section>, lines: seq<Line>, line: Line, s: Section, body: real)
    requires Divides(starts, sections, lines, body)
    requires IsSectionOf(s, lines + [line], |lines|, |lines| + 1, body)
    ensures Divides(starts + [|lines| + 1], sections + [s], lines + [line], body)
  {
    var more, next := starts + [|lines| + 1], sections + [s];
    forall i | 0 <= i < |next| ensures IsSectionOf(next[i], lines + [line], more[i], more[i + 1], body) {
      if i < |sections| {
        assert more[i] == starts[i] && more[i + 1] == starts[i + 1] && next[i] == sections[i];
        StillSection(sections[i], lines, line, starts[i], starts[i + 1], body);
      } else {
        assert more[i] == |lines| && more[i + 1] == |lines| + 1 && next[i] == s;
      }
    }
  }

  lemma ExtendDivides(starts: seq<nat>, sections: seq<Section>, lines: seq<Line>, line: Line, body: real)
      returns (more: seq<nat>)
    requires Divides(starts, sections, lines, body) && sections != [] && !ReadsAsHeading(line, body)
    ensures Divides(more, ExtendLast(sections, line.text + "\n"), lines + [line], body)
  {
    var n := |sections| - 1;
    var next := ExtendLast(sections, line.text + "\n");
    more := starts[..n + 1] + [|lines| + 1];
    forall i | 0 <= i < |next| ensures IsSectionOf(next[i], lines + [line], more[i], more[i + 1], body) {
      if i < n {
        StillSection(sections[i], lines, line, starts[i], starts[i + 1], body);
      } else {
        LongerSection(sections[n], lines, line, starts[n], body);
      }
    }
  }

  lemma {:induction false} SectionsDivide(lines: seq<Line>, body: real) returns (starts: seq<nat>)
    ensures Divides(starts, ToSections(Groups(lines, body + HEADING_MARGIN_PT)), lines, body)
  {
    var headingMin := body + HEADING_MARGIN_PT;
    if lines == [] {
      starts := [0];
    } else {
      var n := |lines| - 1;
      var init, line := lines[..n], lines[n];
      assert lines == init + [line];
      var before := SectionsDivide(init, body);
      var sections := ToSections(Groups(init, headingMin));
      SectionStep(init, line, headingMin);
      HeadingMeans(line, body);
      if ReadsAsHeading(line, body) {
        var s := Section(line.text, line.page, "", []);
        NewSection(s, init, line, body);
        AppendDivides(before, sections, init, line, s, body);
        starts := before + [n + 1];
      } else if sections == [] {
        var s := Section(INFO_HEADING, line.page, line.text + "\n", []);
        NewSection(s, init, line, body);
        AppendDivides(before, sections, init, line, s, body);
        assert "" + (line.text + "\n") == line.text + "\n";
        starts := before + [n + 1];
      } else {
        starts := ExtendDivides(before, sections, init, line, body);
      }
    }
  }

  // ---------------------------------------------------------------- the document

  predicate IsLargest(size: real, lines: seq<Line>) {
    && (exists i :: 0 <= i < |lines| && lines[i].size == size)
    && (forall i :: 0 <= i < |lines| ==> lines[i].size <= size)
  }

  /** Line `k` is the title: the first one that is at most 0.1 points smaller than the largest size, if that is at
      least 3.5 points larger than the body. Without a title `k` is the number of lines. */
  ghost predicate IsTitleAt(k: nat, lines: seq<Line>, body: real) {
    exists largest :: IsLargest(largest, lines) &&
      if largest >= body + 3.5 then
        k < |lines| && lines[k].size >= largest - 0.1 && forall i :: 0 <= i < k ==> lines[i].size < largest - 0.1
      else k == |lines|
  }

  lemma TitleIsFirst(lines: seq<Line>)
    requires lines != []
    ensures IsTitleAt(TitleIndex(lines, TitleFloor(lines)), lines, BodySize(lines))
  {
    var largest, floor := MaxSize(lines), TitleFloor(lines);
    assert IsLargest(largest, lines);
    var k := TitleIndex(lines, floor);
    if largest >= BodySize(lines) + 3.5 {
      assert floor == Some(largest - 0.1);
      assert forall i :: 0 <= i < |lines| ==> (IsTitleLine(floor, lines[i]) <==> lines[i].size >= largest - 0.1);
    }
  }

  lemma PathsIgnored(starts: seq<nat>, sections: seq<Section>, title: string, lines: seq<Line>, body: real)
    requires Divides(starts, sections, lines, body)
    ensures Divides(starts, WithPaths(sections, title), lines, body)
  {
    var named := WithPaths(sections, title);
    forall i | 0 <= i < |named| ensures IsSectionOf(named[i], lines, starts[i], starts[i + 1], body) {
      assert IsSectionOf(sections[i], lines, starts[i], starts[i + 1], body);
    }
  }

  /** The document has line `k` as its title, or the file's stem if there is no line `k`; its sections divide all
      other lines, and the path of a section is its heading, below a title line if there is one. */
  ghost predicate IsOutline(doc: ParsedDocument, k: nat, starts: seq<nat>, lines: seq<Line>, stem: string, body: real)
    requires k <= |lines|
  {
    var titled := k < |lines|;
    && doc.title == (if titled then lines[k].text else stem)
    && Divides(starts, doc.sections, if titled then lines[..k] + lines[k + 1..] else lines, body)
    && HasPaths(doc.sections, titled, doc.title)
  }

  predicate HasPaths(sections: seq<Section>, titled: bool, title: string) {
    forall i :: 0 <= i < |sections| ==>
      sections[i].path == if titled then [title, sections[i].heading] else [sections[i].heading]
  }

  lemma PathsGiven(sections: seq<Section>, title: string)
    ensures HasPaths(WithPaths(sections, title), title != "", title)
  {
  }

  lemma ParsedParts(lines: seq<Line>, stem: string)
    requires Collected(lines) && lines != []
    ensures
      var doc, title := Parse(lines, stem), TitleText(lines, TitleFloor(lines));
      doc.sections == WithPaths(MainSections(lines), title) && doc.title == if title != "" then title else stem
  {
    MergeFallbackUnreachable(lines);
  }

  /** The pieces of the parse, put together; `main` are the sections before they get their paths. */
  lemma OutlineOf(doc: ParsedDocument, k: nat, starts: seq<nat>, lines: seq<Line>, stem: string, body: real,
                  main: seq<Section>, title: string)
    requires k <= |lines| && title == (if k < |lines| then lines[k].text else "") && (title != "" <==> k < |lines|)
    requires Divides(starts, main, if k < |lines| then lines[..k] + lines[k + 1..] else lines, body)
    requires doc.sections == WithPaths(main, title) && doc.title == if title != "" then title else stem
    ensures IsOutline(doc, k, starts, lines, stem, body)
  {
    PathsIgnored(starts, main, title, if k < |lines| then lines[..k] + lines[k + 1..] else lines, body);
    PathsGiven(main, title);
  }

  /** The whole parse, for every document with lines: the first line that can be a title becomes it, and all other
      lines are divided into sections at their headings. */
  lemma ParseIsOutline(lines: seq<Line>, stem: string) returns (k: nat, starts: seq<nat>)
    requires Collected(lines) && lines != []
    ensures k <= |lines| && IsTitleAt(k, lines, BodySize(lines))
    ensures IsOutline(Parse(lines, stem), k, starts, lines, stem, BodySize(lines))
  {
    var title, main;
    k, title := TitleParts(lines);
    starts, main := MainDivides(lines, k);
    ParsedParts(lines, stem);
    OutlineOf(Parse(lines, stem), k, starts, lines, stem, BodySize(lines), main, title);
  }

  lemma TitleParts(lines: seq<Line>) returns (k: nat, title: string)
    requires Collected(lines) && lines != []
    ensures k == TitleIndex(lines, TitleFloor(lines)) && title == TitleText(lines, TitleFloor(lines))
    ensures k <= |lines| && title == (if k < |lines| then lines[k].text else "") && (title != "" <==> k < |lines|)
    ensures IsTitleAt(k, lines, BodySize(lines))
  {
    var floor := TitleFloor(lines);
    k, title := TitleIndex(lines, floor), TitleText(lines, floor);
    TitleIsFirst(lines);
  }

  lemma MainDivides(lines: seq<Line>, k: nat) returns (starts: seq<nat>, main: seq<Section>)
    requires k == TitleIndex(lines, TitleFloor(lines))
    ensures main == MainSections(lines)
    ensures Divides(starts, main, if k < |lines| then lines[..k] + lines[k + 1..] else lines, BodySize(lines))
  {
    var rest := if k < |lines| then lines[..k] + lines[k + 1..] else lines;
    starts := SectionsDivide(rest, BodySize(lines));
    main := ToSections(Groups(rest, BodySize(lines) + HEADING_MARGIN_PT));
    MainSectionsOf(lines, k, rest);
  }

  lemma MainSectionsOf(lines: seq<Line>, k: nat, rest: seq<Line>)
    requires k == TitleIndex(lines, TitleFloor(lines))
    requires rest == if k < |lines| then lines[..k] + lines[k + 1..] else lines
    ensures MainSections(lines) == ToSections(Groups(rest, BodySize(lines) + HEADING_MARGIN_PT))
  {
    assert Untitled(lines, TitleFloor(lines)) == rest;
  }

  /** A document without lines is one empty section, named after the file. */
  lemma EmptyDocument(stem: string)
    ensures
      var heading := "\U{C804}\U{CCB4} \U{B0B4}\U{C6A9}";
      Parse([], stem) == ParsedDocument(stem, [Section(heading, 1, "", [heading])])
  {
    MergeFallbackUnreachable([]);
  }
}
