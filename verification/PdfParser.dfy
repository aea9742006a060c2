/** The worker's PDF structure parser: the body font size, heading detection and the section pass. */
module PdfParser {
  import opened Options
  import opened Text

  const MAX_HEADING_LEN := 80
  const MIN_HEADING_LEN := 2
  const HEADING_MARGIN_PT := 1.5
  const DEFAULT_BODY_SIZE := 10.5
  const INFO_HEADING := "\U{BB38}\U{C11C} \U{C815}\U{BCF4}"
  const WHOLE_HEADING := "\U{C804}\U{CCB4} \U{B0B4}\U{C6A9}"

  /** One collected text line: page number, stripped text, largest span size. */
  datatype Line = Line(page: nat, text: string, size: real)

  datatype Section = Section(heading: string, page: nat, text: string, path: seq<string>)

  datatype ParsedDocument = ParsedDocument(title: string, sections: seq<Section>)

  /** What the line collector guarantees: texts are stripped and not empty. */
  predicate Collected(lines: seq<Line>) {
    forall i :: 0 <= i < |lines| ==> IsParagraph(lines[i].text)
  }

  // ---------------------------------------------------------------- body size

  /** How many characters are set in `size`. */
  function Weight(lines: seq<Line>, size: real): (w: nat) {
    if lines == [] then 0
    else Weight(lines[..|lines| - 1], size)
         + (if lines[|lines| - 1].size == size then |lines[|lines| - 1].text| else 0)
  }

  lemma {:induction false} WeightZero(lines: seq<Line>, size: real)
    requires forall i :: 0 <= i < |lines| ==> lines[i].size != size
    ensures Weight(lines, size) == 0
  {
    if lines != [] {
      WeightZero(lines[..|lines| - 1], size);
    }
  }

  /** The sizes that occur, each once, in order of first occurrence. */
  function Sizes(lines: seq<Line>): seq<real> {
    if lines == [] then []
    else
      var init := Sizes(lines[..|lines| - 1]);
      if lines[|lines| - 1].size in init then init else init + [lines[|lines| - 1].size]
  }

  /** The first of the heaviest of the sizes in `ss`. */
  function Heaviest(lines: seq<Line>, ss: seq<real>): real
    requires ss != []
  {
    if |ss| == 1 then ss[0]
    else
      var h := Heaviest(lines, ss[..|ss| - 1]);
      if Weight(lines, ss[|ss| - 1]) > Weight(lines, h) then ss[|ss| - 1] else h
  }

  lemma {:induction false} SizesComplete(lines: seq<Line>)
    ensures forall i :: 0 <= i < |lines| ==> lines[i].size in Sizes(lines)
    ensures lines != [] ==> Sizes(lines) != []
  {
    if lines != [] {
      var init := lines[..|lines| - 1];
      SizesComplete(init);
      forall i | 0 <= i < |lines| ensures lines[i].size in Sizes(lines) {
        if i < |init| { assert init[i] == lines[i]; }
      }
    }
  }

  function BodySize(lines: seq<Line>): real {
    SizesComplete(lines);
    if lines == [] then DEFAULT_BODY_SIZE else Heaviest(lines, Sizes(lines))
  }

  lemma {:induction false} HeaviestFirst(lines: seq<Line>, ss: seq<real>) returns (p: nat)
    requires ss != []
    ensures p < |ss| && ss[p] == Heaviest(lines, ss)
    ensures forall q :: 0 <= q < |ss| ==> Weight(lines, ss[q]) <= Weight(lines, ss[p])
    ensures forall q :: 0 <= q < p ==> Weight(lines, ss[q]) < Weight(lines, ss[p])
  {
    if |ss| == 1 {
      p := 0;
    } else {
      p := HeaviestFirst(lines, ss[..|ss| - 1]);
      if Weight(lines, ss[|ss| - 1]) > Weight(lines, ss[p]) {
        p := |ss| - 1;
      }
    }
  }

  /** The `p`-th size occurs on a line before which only earlier sizes occur. */
  lemma {:induction false} FirstOccurrence(lines: seq<Line>, p: nat) returns (at: nat)
    requires p < |Sizes(lines)|
    ensures at < |lines| && lines[at].size == Sizes(lines)[p]
    ensures forall i :: 0 <= i < at ==> lines[i].size in Sizes(lines)[..p]
  {
    var init := lines[..|lines| - 1];
    if p < |Sizes(init)| {
      at := FirstOccurrence(init, p);
      assert Sizes(lines)[..p] == Sizes(init)[..p];
      assert forall i :: 0 <= i < at ==> lines[i] == init[i];
    } else {
      at := |init|;
      SizesComplete(init);
      assert Sizes(lines)[..p] == Sizes(init);
      assert forall i :: 0 <= i < at ==> lines[i] == init[i];
    }
  }

  /** The body size occurs, no size carries more characters,
      and a size that ties with it does not occur earlier. */
  lemma BodySizeIsMode(lines: seq<Line>) returns (at: nat)
    requires lines != []
    ensures at < |lines| && lines[at].size == BodySize(lines)
    ensures forall i :: 0 <= i < |lines| ==> Weight(lines, lines[i].size) <= Weight(lines, BodySize(lines))
    ensures forall i :: 0 <= i < at ==> Weight(lines, lines[i].size) < Weight(lines, BodySize(lines))
  {
    SizesComplete(lines);
    var p := HeaviestFirst(lines, Sizes(lines));
    at := FirstOccurrence(lines, p);
  }

  ghost function Counts(lines: seq<Line>): map<real, nat> {
    map s | s in Sizes(lines) :: Weight(lines, s)
  }

  lemma CountOneMore(lines: seq<Line>, line: Line)
    ensures
      var w := if line.size in Counts(lines) then Counts(lines)[line.size] else 0;
      Counts(lines + [line]) == Counts(lines)[line.size := w + |line.text|]
    ensures Sizes(lines + [line]) ==
      if line.size in Counts(lines) then Sizes(lines) else Sizes(lines) + [line.size]
  {
    assert (lines + [line])[..|lines|] == lines;
    SizesComplete(lines);
    if line.size !in Counts(lines) {
      WeightZero(lines, line.size);
    }
  }

  /** `_body_size`: a counter keyed by size, in insertion order, then its first maximum. */
  method ComputeBodySize(lines: seq<Line>) returns (body: real)
    ensures body == BodySize(lines)
  {
    var counter, order := CountSizes(lines);
    SizesComplete(lines);
    assert forall j :: 0 <= j < |order| ==> order[j] in Sizes(lines);
    if lines == [] { return DEFAULT_BODY_SIZE; }
    body := MostCommon(lines, counter, order);
  }

  method CountSizes(lines: seq<Line>) returns (counter: map<real, nat>, order: seq<real>)
    ensures counter == Counts(lines) && order == Sizes(lines)
  {
    counter, order := map[], [];
    for i := 0 to |lines|
      invariant counter == Counts(lines[..i]) && order == Sizes(lines[..i])
    {
      var size := lines[i].size;
      assert lines[..i + 1] == lines[..i] + [lines[i]];
      CountOneMore(lines[..i], lines[i]);
      var before := if size in counter then counter[size] else 0;
      if size !in counter {
        order := order + [size];
      }
      counter := counter[size := before + |lines[i].text|];
    }
    assert lines[..|lines|] == lines;
  }

  /** `counter.most_common(1)[0][0]`: the first key, in insertion order, with the largest count. */
  method MostCommon(ghost lines: seq<Line>, counter: map<real, nat>, order: seq<real>) returns (body: real)
    requires order != []
    requires forall j :: 0 <= j < |order| ==> order[j] in counter && counter[order[j]] == Weight(lines, order[j])
    ensures body == Heaviest(lines, order)
  {
    body := order[0];
    for j := 1 to |order|
      invariant body in counter && counter[body] == Weight(lines, body) && body == Heaviest(lines, order[..j])
    {
      assert order[..j + 1][..j] == order[..j];
      if counter[order[j]] > counter[body] {
        body := order[j];
      }
    }
    assert order[..|order|] == order;
  }

  // ---------------------------------------------------------------- headings

  predicate HasText(text: string) {
    exists i :: 0 <= i < |text| && IsTextChar(text[i])
  }

  predicate IsTextChar(c: char) {
    '0' <= c <= '9' || 'A' <= c <= 'Z' || 'a' <= c <= 'z' || '\U{AC00}' <= c <= '\U{D7A3}'
  }

  predicate IsHeading(text: string, size: real, headingMin: real) {
    && size >= headingMin
    && MIN_HEADING_LEN <= |text| <= MAX_HEADING_LEN
    && HasText(text)
  }

  function MaxSize(lines: seq<Line>): (m: real)
    ensures forall i :: 0 <= i < |lines| ==> lines[i].size <= m || lines == []
    ensures lines != [] ==> exists i :: 0 <= i < |lines| && lines[i].size == m
  {
    if lines == [] then 0.0
    else if |lines| == 1 then lines[0].size
    else
      var m := MaxSize(lines[1..]);
      var r := if lines[0].size >= m then lines[0].size else m;
      assert forall i :: 1 <= i < |lines| ==> lines[i] == lines[1..][i - 1];
      assert r == m ==> exists i :: 1 <= i < |lines| && lines[i].size == m by {
        var i :| 0 <= i < |lines[1..]| && lines[1..][i].size == m;
        assert lines[i + 1].size == m;
      }
      r
  }

  function HeadingMin(lines: seq<Line>): real { BodySize(lines) + HEADING_MARGIN_PT }

  /** The smallest size of a cover title, if the document can have one. */
  function TitleFloor(lines: seq<Line>): Option<real> {
    if MaxSize(lines) >= HeadingMin(lines) + 2.0 then Some(MaxSize(lines) - 0.1) else None
  }

  predicate IsTitleLine(floor: Option<real>, line: Line) {
    floor.Some? && line.size >= floor.value
  }

  /** The index of the first title line, or |lines|. */
  function TitleIndex(lines: seq<Line>, floor: Option<real>): (k: nat)
    ensures k <= |lines|
    ensures forall i :: 0 <= i < k ==> !IsTitleLine(floor, lines[i])
    ensures k < |lines| ==> IsTitleLine(floor, lines[k])
  {
    if lines == [] then 0
    else
      var n := |lines| - 1;
      var k := TitleIndex(lines[..n], floor);
      if k < n || IsTitleLine(floor, lines[n]) then k else n + 1
  }

  /** The lines without the title line. */
  function Untitled(lines: seq<Line>, floor: Option<real>): seq<Line> {
    var k := TitleIndex(lines, floor);
    if k < |lines| then lines[..k] + lines[k + 1..] else lines
  }

  function TitleText(lines: seq<Line>, floor: Option<real>): string {
    var k := TitleIndex(lines, floor);
    if k < |lines| then lines[k].text else ""
  }

  /** How one more line changes the title and the remaining lines. */
  lemma TitleStep(lines: seq<Line>, line: Line, floor: Option<real>)
    requires Collected(lines)
    ensures
      var next := lines + [line];
      if TitleText(lines, floor) == "" && IsTitleLine(floor, line) then
        TitleText(next, floor) == line.text && Untitled(next, floor) == Untitled(lines, floor)
      else
        TitleText(next, floor) == TitleText(lines, floor)
        && Untitled(next, floor) == Untitled(lines, floor) + [line]
  {
    var next := lines + [line];
    assert next[..|lines|] == lines;
    var k := TitleIndex(lines, floor);
    if k < |lines| {
      assert lines[k].text != "";
      assert TitleIndex(next, floor) == k;
      assert next[..k] == lines[..k] && next[k + 1..] == lines[k + 1..] + [line];
    }
  }

  // ---------------------------------------------------------------- sections

  /** The lines behind one section: its heading line, unless it is the synthetic first section,
      and its body lines. */
  datatype Group = Group(head: Option<Line>, body: seq<Line>)

  function GroupLines(g: Group): seq<Line> {
    (if g.head.Some? then [g.head.value] else []) + g.body
  }

  function Flatten(gs: seq<Group>): seq<Line> {
    if gs == [] then [] else Flatten(gs[..|gs| - 1]) + GroupLines(gs[|gs| - 1])
  }

  /** What a correct grouping of `lines` is: it reproduces the lines in order, heads are headings,
      body lines are not, and only a non-empty first group lacks a heading. */
  ghost predicate IsGrouping(gs: seq<Group>, lines: seq<Line>, headingMin: real) {
    && Flatten(gs) == lines
    && (forall i :: 0 <= i < |gs| ==> GroupOk(gs[i], i == 0, headingMin))
  }

  /** The head is a heading, body lines are not, and only a non-empty first group lacks a heading. */
  predicate GroupOk(g: Group, first: bool, headingMin: real) {
    && (if g.head.Some? then IsHeading(g.head.value.text, g.head.value.size, headingMin) else first && g.body != [])
    && (forall j :: 0 <= j < |g.body| ==> !IsHeading(g.body[j].text, g.body[j].size, headingMin))
  }

  function AddLine(gs: seq<Group>, line: Line, headingMin: real): seq<Group> {
    if IsHeading(line.text, line.size, headingMin) then gs + [Group(Some(line), [])]
    else if gs == [] then [Group(None, [line])]
    else gs[..|gs| - 1] + [gs[|gs| - 1].(body := gs[|gs| - 1].body + [line])]
  }

  function Groups(lines: seq<Line>, headingMin: real): seq<Group> {
    if lines == [] then []
    else AddLine(Groups(lines[..|lines| - 1], headingMin), lines[|lines| - 1], headingMin)
  }

  lemma {:induction false} GroupsIsGrouping(lines: seq<Line>, headingMin: real)
    ensures IsGrouping(Groups(lines, headingMin), lines, headingMin)
  {
    if lines != [] {
      var n := |lines| - 1;
      GroupsIsGrouping(lines[..n], headingMin);
      assert lines[..n] + [lines[n]] == lines;
      AddLineGroups(Groups(lines[..n], headingMin), lines[..n], lines[n], headingMin);
    }
  }

  lemma FlattenSnoc(gs: seq<Group>, g: Group)
    ensures Flatten(gs + [g]) == Flatten(gs) + GroupLines(g)
  {
    assert (gs + [g])[..|gs|] == gs;
  }

  /** One more group. */
  lemma OpenGroup(gs: seq<Group>, lines: seq<Line>, g: Group, headingMin: real)
    requires IsGrouping(gs, lines, headingMin) && GroupOk(g, gs == [], headingMin)
    ensures IsGrouping(gs + [g], lines + GroupLines(g), headingMin)
  {
    FlattenSnoc(gs, g);
    var hs := gs + [g];
    assert forall i :: 0 <= i < |gs| ==> hs[i] == gs[i];
  }

  /** The grouping without its last group. */
  lemma CloseGroup(front: seq<Group>, g: Group, lines: seq<Line>, headingMin: real)
    requires IsGrouping(front + [g], lines, headingMin)
    ensures IsGrouping(front, Flatten(front), headingMin) && GroupOk(g, front == [], headingMin)
    ensures lines == Flatten(front) + GroupLines(g)
  {
    FlattenSnoc(front, g);
    var gs := front + [g];
    assert gs[|front|] == g && forall i :: 0 <= i < |front| ==> gs[i] == front[i];
  }

  /** A body line goes to the last group. */
  lemma ExtendGroup(front: seq<Group>, g: Group, lines: seq<Line>, line: Line, headingMin: real)
    requires IsGrouping(front + [g], lines, headingMin) && !IsHeading(line.text, line.size, headingMin)
    ensures IsGrouping(front + [g.(body := g.body + [line])], lines + [line], headingMin)
  {
    var longer := g.(body := g.body + [line]);
    CloseGroup(front, g, lines, headingMin);
    OpenGroup(front, Flatten(front), longer, headingMin);
    assert Flatten(front) + GroupLines(longer) == lines + [line];
  }

  lemma AddLineGroups(gs: seq<Group>, lines: seq<Line>, line: Line, headingMin: real)
    requires IsGrouping(gs, lines, headingMin)
    ensures IsGrouping(AddLine(gs, line, headingMin), lines + [line], headingMin)
  {
    if IsHeading(line.text, line.size, headingMin) {
      OpenGroup(gs, lines, Group(Some(line), []), headingMin);
    } else if gs == [] {
      OpenGroup([], [], Group(None, [line]), headingMin);
      assert [] + [Group(None, [line])] == [Group(None, [line])];
    } else {
      assert gs == gs[..|gs| - 1] + [gs[|gs| - 1]];
      ExtendGroup(gs[..|gs| - 1], gs[|gs| - 1], lines, line, headingMin);
    }
  }

  /** Taking the last line away from a group with a body. */
  lemma Shorten(front: seq<Group>, g: Group, lines: seq<Line>, headingMin: real) returns (fs: seq<Group>)
    requires IsGrouping(front + [g], lines, headingMin) && g.body != []
    ensures lines != [] && IsGrouping(fs, lines[..|lines| - 1], headingMin)
    ensures front + [g] == AddLine(fs, lines[|lines| - 1], headingMin)
  {
    var m := |g.body| - 1;
    var line, shorter := g.body[m], Group(g.head, g.body[..m]);
    CloseGroup(front, g, lines, headingMin);
    assert g.body == shorter.body + [line];
    assert lines == (Flatten(front) + GroupLines(shorter)) + [line];
    assert lines[..|lines| - 1] == Flatten(front) + GroupLines(shorter);
    if shorter == Group(None, []) {
      fs := [];
      assert front == [];
    } else {
      fs := front + [shorter];
      OpenGroup(front, Flatten(front), shorter, headingMin);
      assert fs[..|front|] == front && g == shorter.(body := shorter.body + [line]);
    }
  }

  /** Taking the last line away from a grouping leaves a grouping of the other lines. */
  lemma WithoutLast(gs: seq<Group>, lines: seq<Line>, headingMin: real) returns (fs: seq<Group>)
    requires IsGrouping(gs, lines, headingMin) && gs != []
    ensures lines != [] && IsGrouping(fs, lines[..|lines| - 1], headingMin)
    ensures gs == AddLine(fs, lines[|lines| - 1], headingMin)
  {
    var front, g := gs[..|gs| - 1], gs[|gs| - 1];
    assert gs == front + [g];
    if g.body == [] {
      FlattenSnoc(front, g);
      fs := front;
      assert GroupLines(g) == [g.head.value];
    } else {
      fs := Shorten(front, g, lines, headingMin);
    }
  }

  /** There is only one correct grouping. */
  lemma {:induction false} GroupingUnique(gs: seq<Group>, lines: seq<Line>, headingMin: real)
    requires IsGrouping(gs, lines, headingMin)
    ensures gs == Groups(lines, headingMin)
    decreases |lines|
  {
    if gs != [] {
      var fs := WithoutLast(gs, lines, headingMin);
      GroupingUnique(fs, lines[..|lines| - 1], headingMin);
    }
  }

  function BodyText(body: seq<Line>): string {
    if body == [] then "" else BodyText(body[..|body| - 1]) + body[|body| - 1].text + "\n"
  }

  function GroupPage(g: Group): nat {
    if g.head.Some? then g.head.value.page else if g.body != [] then g.body[0].page else 0
  }

  function ToSection(g: Group): Section {
    Section(if g.head.Some? then g.head.value.text else INFO_HEADING, GroupPage(g), BodyText(g.body), [])
  }

  function ToSections(gs: seq<Group>): (r: seq<Section>)
    ensures |r| == |gs|
  {
    seq(|gs|, i requires 0 <= i < |gs| => ToSection(gs[i]))
  }

  /** The sections of the main pass over the lines. */
  function MainSections(lines: seq<Line>): seq<Section> {
    PassSections(lines, TitleFloor(lines), HeadingMin(lines))
  }

  predicate AllBlank(sections: seq<Section>) {
    forall i :: 0 <= i < |sections| ==> Strip(sections[i].text) == ""
  }

  function Headings(sections: seq<Section>): (r: seq<string>)
    ensures |r| == |sections|
  {
    seq(|sections|, i requires 0 <= i < |sections| => sections[i].heading)
  }

  /** The two fallbacks: headings without any body are merged, no section at all becomes one empty one. */
  function WithFallbacks(sections: seq<Section>): seq<Section> {
    if sections == [] then [Section(WHOLE_HEADING, 1, "", [])]
    else if AllBlank(sections) then
      [Section(WHOLE_HEADING, sections[0].page, Join("\n", Headings(sections)) + "\n", [])]
    else sections
  }

  function WithPaths(sections: seq<Section>, title: string): (r: seq<Section>)
    ensures |r| == |sections|
  {
    seq(|sections|, i requires 0 <= i < |sections| =>
      sections[i].(path := if title != "" then [title, sections[i].heading] else [sections[i].heading]))
  }

  /** The sections of the main pass over some lines. */
  function PassSections(lines: seq<Line>, floor: Option<real>, headingMin: real): seq<Section> {
    ToSections(Groups(Untitled(lines, floor), headingMin))
  }

  function Assemble(title: string, sections: seq<Section>, stem: string): ParsedDocument {
    ParsedDocument(if title != "" then title else stem, WithPaths(WithFallbacks(sections), title))
  }

  /** The document that `parse_pdf_sync` returns for the collected lines; `stem` is the file's stem. */
  function Parse(lines: seq<Line>, stem: string): ParsedDocument {
    Assemble(TitleText(lines, TitleFloor(lines)), MainSections(lines), stem)
  }

  /** The body size, the largest size, and the pass over the lines. */
  method MainPass(lines: seq<Line>) returns (title: string, sections: seq<Section>)
    requires Collected(lines)
    ensures title == TitleText(lines, TitleFloor(lines)) && sections == MainSections(lines)
  {
    var body := ComputeBodySize(lines);
    var headingMin := body + HEADING_MARGIN_PT;
    var titleSize := MaxSize(lines);
    title, sections := SectionPass(lines, titleSize, headingMin, TitleFloor(lines));
  }

  /** `parse_pdf_sync`, from the collected lines on. */
  method ParsePdf(lines: seq<Line>, stem: string) returns (doc: ParsedDocument)
    requires Collected(lines)
    ensures doc == Parse(lines, stem)
  {
    var title, sections := MainPass(lines);
    sections := Fallbacks(sections);
    doc := ParsedDocument(if title != "" then title else stem, WithPaths(sections, title));
  }

  /** The merge of headings without any body, and the section of a document without lines. */
  method Fallbacks(main: seq<Section>) returns (sections: seq<Section>)
    ensures sections == WithFallbacks(main)
  {
    sections := main;
    if sections != [] && AllBlank(sections) {
      var mergedText := Join("\n", Headings(sections));
      sections := [Section(WHOLE_HEADING, sections[0].page, mergedText + "\n", [])];
    }
    if sections == [] {
      sections := [Section(WHOLE_HEADING, 1, "", [])];
    }
  }

  /** The single pass that picks the title and builds the sections. */
  method SectionPass(lines: seq<Line>, titleSize: real, headingMin: real, ghost floor: Option<real>)
      returns (title: string, sections: seq<Section>)
    requires Collected(lines)
    requires floor == if titleSize >= headingMin + 2.0 then Some(titleSize - 0.1) else None
    ensures title == TitleText(lines, floor)
    ensures sections == PassSections(lines, floor, headingMin)
  {
    title, sections := "", [];
    for i := 0 to |lines|
      invariant (title, sections) == Pass(lines[..i], floor, headingMin)
    {
      var line := lines[i];
      assert lines[..i + 1][..i] == lines[..i];
      if title == "" && titleSize >= headingMin + 2.0 && line.size >= titleSize - 0.1 {
        title := line.text;
        continue;
      }
      if IsHeading(line.text, line.size, headingMin) {
        sections := sections + [Section(line.text, line.page, "", [])];
        continue;
      }
      if sections == [] {
        sections := [Section(INFO_HEADING, line.page, "", [])];
      }
      sections := ExtendLast(sections, line.text + "\n");
    }
    assert lines[..|lines|] == lines;
    PassIsParse(lines, floor, headingMin);
  }

  /** `current.text += text`, where `current` is the last section. */
  function ExtendLast(ss: seq<Section>, text: string): seq<Section>
    requires ss != []
  {
    ss[..|ss| - 1] + [ss[|ss| - 1].(text := ss[|ss| - 1].text + text)]
  }

  function AppendSection(ss: seq<Section>, line: Line, headingMin: real): seq<Section> {
    if IsHeading(line.text, line.size, headingMin) then ss + [Section(line.text, line.page, "", [])]
    else ExtendLast(if ss == [] then [Section(INFO_HEADING, line.page, "", [])] else ss, line.text + "\n")
  }

  /** Title and sections, line by line. */
  function Pass(lines: seq<Line>, floor: Option<real>, headingMin: real): (string, seq<Section>) {
    if lines == [] then ("", [])
    else
      var (title, ss) := Pass(lines[..|lines| - 1], floor, headingMin);
      var line := lines[|lines| - 1];
      if title == "" && IsTitleLine(floor, line) then (line.text, ss)
      else (title, AppendSection(ss, line, headingMin))
  }

  /** The line-by-line pass computes the first title line and the grouping of all other lines. */
  lemma {:induction false} PassIsParse(lines: seq<Line>, floor: Option<real>, headingMin: real)
    requires Collected(lines)
    ensures Pass(lines, floor, headingMin) == (TitleText(lines, floor), PassSections(lines, floor, headingMin))
  {
    if lines != [] {
      var init, line := lines[..|lines| - 1], lines[|lines| - 1];
      assert lines == init + [line];
      PassIsParse(init, floor, headingMin);
      TitleStep(init, line, floor);
      SectionStep(Untitled(init, floor), line, headingMin);
    }
  }

  /** How one more line that is not the title changes the sections. */
  lemma SectionStep(lines: seq<Line>, line: Line, headingMin: real)
    ensures
      ToSections(Groups(lines + [line], headingMin)) ==
      AppendSection(ToSections(Groups(lines, headingMin)), line, headingMin)
  {
    var gs := Groups(lines, headingMin);
    assert (lines + [line])[..|lines|] == lines;
    assert Groups(lines + [line], headingMin) == AddLine(gs, line, headingMin);
    if IsHeading(line.text, line.size, headingMin) {
      ToSectionsSnoc(gs, Group(Some(line), []));
    } else if gs == [] {
      AppendToGroup(Group(None, []), line);
      ToSectionsSnoc([], Group(None, [line]));
    } else {
      GroupsIsGrouping(lines, headingMin);
      var front, g := gs[..|gs| - 1], gs[|gs| - 1];
      AppendToGroup(g, line);
      assert gs == front + [g];
      ToSectionsSnoc(front, g);
      ToSectionsSnoc(front, g.(body := g.body + [line]));
    }
  }

  lemma ToSectionsSnoc(gs: seq<Group>, g: Group)
    ensures ToSections(gs + [g]) == ToSections(gs) + [ToSection(g)]
  {
  }

  lemma AppendToGroup(g: Group, line: Line)
    requires g.head.None? ==> g.body != [] || g == Group(None, [])
    ensures
      var before := if g == Group(None, []) then Section(INFO_HEADING, line.page, "", []) else ToSection(g);
      ToSection(g.(body := g.body + [line])) == before.(text := before.text + (line.text + "\n"))
  {
    var body := g.body + [line];
    assert body[..|g.body|] == g.body;
    assert BodyText(body) == BodyText(g.body) + line.text + "\n";
    assert BodyText(g.body) + line.text + "\n" == BodyText(g.body) + (line.text + "\n");
  }

  // ---------------------------------------------------------------- what parsing promises

  lemma {:induction false} FlattenMember(gs: seq<Group>, line: Line) returns (i: nat)
    requires line in Flatten(gs)
    ensures i < |gs| && line in GroupLines(gs[i])
  {
    var n := |gs| - 1;
    if line in GroupLines(gs[n]) {
      i := n;
    } else {
      i := FlattenMember(gs[..n], line);
    }
  }

  lemma {:induction false} BodyTextInk(body: seq<Line>)
    requires forall j :: 0 <= j < |body| ==> IsParagraph(body[j].text)
    ensures Strip(BodyText(body)) == "" <==> body == []
  {
    StripInk(BodyText(body));
    if body != [] {
      var last := body[|body| - 1].text;
      var init := BodyText(body[..|body| - 1]);
      assert BodyText(body) == init + last + "\n";
      InkConcat(init + last, "\n");
      InkConcat(init, last);
      InkBlank(last);
      assert !IsSpace(last[0]);
    }
  }

  lemma {:induction false} FlattenContains(gs: seq<Group>, i: nat, j: nat)
    requires i < |gs| && j < |gs[i].body|
    ensures gs[i].body[j] in Flatten(gs)
  {
    var n := |gs| - 1;
    if i < n {
      assert gs[..n][i] == gs[i];
      FlattenContains(gs[..n], i, j);
    } else {
      var head := if gs[i].head.Some? then [gs[i].head.value] else [];
      assert GroupLines(gs[n])[|head| + j] == gs[i].body[j];
    }
  }

  /** The section groups of a document. */
  function DocumentGroups(lines: seq<Line>): seq<Group> {
    Groups(Untitled(lines, TitleFloor(lines)), HeadingMin(lines))
  }

  /** Parsing loses no line: at most one line, the first that is large enough, becomes the title,
      and all other lines reappear in order, each as a heading or in the text below its heading. */
  lemma ParseKeepsLines(lines: seq<Line>)
    ensures
      var k := TitleIndex(lines, TitleFloor(lines));
      && IsGrouping(DocumentGroups(lines), if k < |lines| then lines[..k] + lines[k + 1..] else lines,
                    HeadingMin(lines))
      && MainSections(lines) == ToSections(DocumentGroups(lines))
  {
    GroupsIsGrouping(Untitled(lines, TitleFloor(lines)), HeadingMin(lines));
  }

  /** A line that is too small for a title stays among the other lines. */
  lemma StaysUntitled(lines: seq<Line>, floor: Option<real>, at: nat)
    requires at < |lines| && !IsTitleLine(floor, lines[at])
    ensures lines[at] in Untitled(lines, floor)
  {
    var k, rest := TitleIndex(lines, floor), Untitled(lines, floor);
    var i := if k < at then at - 1 else at;
    assert rest[i] == lines[at];
  }

  lemma BodyLineUntitled(lines: seq<Line>, line: Line)
    requires lines != [] && line.size == BodySize(lines)
    ensures !IsTitleLine(TitleFloor(lines), line) && !IsHeading(line.text, line.size, HeadingMin(lines))
  {
  }

  /** Heading detection never swallows a document: some line of body size ends up in a section's text. */
  lemma BodyLineSurvives(lines: seq<Line>) returns (i: nat, j: nat)
    requires lines != []
    ensures
      var gs := DocumentGroups(lines);
      i < |gs| && j < |gs[i].body| && gs[i].body[j].size == BodySize(lines) && gs[i].body[j] in lines
  {
    var at := BodySizeIsMode(lines);
    var line := lines[at];
    BodyLineUntitled(lines, line);
    StaysUntitled(lines, TitleFloor(lines), at);
    ParseKeepsLines(lines);
    i := FlattenMember(DocumentGroups(lines), line);
    j := BodyIndex(DocumentGroups(lines), i, line, HeadingMin(lines));
  }

  lemma BodyIndex(gs: seq<Group>, i: nat, line: Line, headingMin: real) returns (j: nat)
    requires i < |gs| && line in GroupLines(gs[i]) && !IsHeading(line.text, line.size, headingMin)
    requires gs[i].head.Some? ==> IsHeading(gs[i].head.value.text, gs[i].head.value.size, headingMin)
    ensures j < |gs[i].body| && gs[i].body[j] == line
  {
    assert line in gs[i].body;
    j :| 0 <= j < |gs[i].body| && gs[i].body[j] == line;
  }

  /** The merge of headings into one section is unreachable, and a document without any text
      is exactly one without lines. */
  lemma MergeFallbackUnreachable(lines: seq<Line>)
    requires Collected(lines)
    ensures lines != [] ==> MainSections(lines) != [] && !AllBlank(MainSections(lines))
    ensures WithFallbacks(MainSections(lines)) ==
      if lines == [] then [Section(WHOLE_HEADING, 1, "", [])] else MainSections(lines)
  {
    if lines != [] {
      var i, j := BodyLineSurvives(lines);
      ParseKeepsLines(lines);
      var gs := DocumentGroups(lines);
      forall m | 0 <= m < |gs[i].body| ensures IsParagraph(gs[i].body[m].text) {
        FlattenContains(gs, i, m);
        assert gs[i].body[m] in Untitled(lines, TitleFloor(lines));
        assert gs[i].body[m] in lines;
      }
      BodyTextInk(gs[i].body);
      assert MainSections(lines)[i].text == BodyText(gs[i].body);
    }
  }

  predicate PageOrdered(lines: seq<Line>) {
    forall i, j :: 0 <= i < j < |lines| ==> lines[i].page <= lines[j].page
  }

  predicate PagesAscend(sections: seq<Section>) {
    forall i, j :: 0 <= i < j < |sections| ==> sections[i].page <= sections[j].page
  }

  predicate GroupsAscend(gs: seq<Group>, last: nat) {
    && (forall i, j :: 0 <= i < j < |gs| ==> GroupPage(gs[i]) <= GroupPage(gs[j]))
    && (forall i :: 0 <= i < |gs| ==> GroupPage(gs[i]) <= last)
  }

  lemma AddLinePages(gs: seq<Group>, last: nat, line: Line, headingMin: real)
    requires GroupsAscend(gs, last) && last <= line.page
    requires forall i :: 0 <= i < |gs| && gs[i].head.None? ==> gs[i].body != []
    ensures GroupsAscend(AddLine(gs, line, headingMin), line.page)
  {
    var r := AddLine(gs, line, headingMin);
    forall i | 0 <= i < |gs| ensures GroupPage(r[i]) == GroupPage(gs[i]) {
    }
    forall i | |gs| <= i < |r| ensures GroupPage(r[i]) == line.page {
    }
  }

  lemma {:induction false} GroupPages(lines: seq<Line>, headingMin: real)
    requires PageOrdered(lines)
    ensures GroupsAscend(Groups(lines, headingMin), if lines == [] then 0 else lines[|lines| - 1].page)
  {
    if lines != [] {
      var init := lines[..|lines| - 1];
      GroupPages(init, headingMin);
      GroupsIsGrouping(init, headingMin);
      AddLinePages(Groups(init, headingMin), if init == [] then 0 else init[|init| - 1].page,
                   lines[|lines| - 1], headingMin);
    }
  }

  lemma UntitledOrdered(lines: seq<Line>, floor: Option<real>)
    requires PageOrdered(lines)
    ensures PageOrdered(Untitled(lines, floor))
  {
    var k, rest := TitleIndex(lines, floor), Untitled(lines, floor);
    forall i, j | 0 <= i < j < |rest| ensures rest[i].page <= rest[j].page {
      var a := if k < |lines| && i >= k then i + 1 else i;
      var b := if k < |lines| && j >= k then j + 1 else j;
      assert rest[i] == lines[a] && rest[j] == lines[b];
    }
  }

  /** For lines in page order, the sections are in page order too. */
  lemma SectionPagesAscend(lines: seq<Line>)
    requires PageOrdered(lines)
    ensures PagesAscend(MainSections(lines))
  {
    UntitledOrdered(lines, TitleFloor(lines));
    GroupPages(Untitled(lines, TitleFloor(lines)), HeadingMin(lines));
  }
}
