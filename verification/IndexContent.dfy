/** What the index holds for a document: the chunk rows of a manual, the card of a drawing. */
module IndexContent {
  import opened Options
  import opened Text
  import opened PdfParser
  import opened Chunker
  import opened ManualText

  const CHUNK_MAX_CHARS := 900
  const CHUNK_OVERLAP_CHARS := 150

  datatype Kind = Manual | Drawing

  /** The metadata of a drawing; an absent optional field is empty. */
  datatype Meta = Meta(title: string, drawingNo: string, equipment: string, line: string, description: string,
                       revision: nat)

  /** What the index is built from: the lines of the manual's file, or the drawing's metadata. */
  datatype Source = File(lines: seq<Line>, stem: string) | Card(meta: Meta)

  datatype Row =
    | ChunkRow(seqNo: nat, page: nat, heading: string, text: string)
    | CardRow(title: string, description: string, equipment: string, revision: nat, embedded: string)

  /** The fields of a metadata update that are given. */
  datatype Change = Change(title: Option<string>, equipment: Option<string>, line: Option<string>,
                           description: Option<string>)

  const NO_CHANGE := Change(None, None, None, None)

  predicate FitsKind(kind: Kind, src: Source) { src.File? <==> kind == Manual }

  /** The lines of a file are what the line collector yields. */
  predicate Readable(src: Source) { src.File? ==> Collected(src.lines) }

  /** The source can be indexed: for a file, the chunker ends. */
  predicate Workable(src: Source) {
    Readable(src)
    && (src.File? ==> ChunkingEnds(Parse(src.lines, src.stem).sections, CHUNK_MAX_CHARS, CHUNK_OVERLAP_CHARS))
  }

  function FileChunks(src: Source): seq<Chunk>
    requires src.File? && Workable(src)
  {
    Chunks(Parse(src.lines, src.stem).sections, CHUNK_MAX_CHARS, CHUNK_OVERLAP_CHARS)
  }

  function ChunkRows(chunks: seq<Chunk>): (r: seq<Row>)
    ensures |r| == |chunks|
  {
    seq(|chunks|, i requires 0 <= i < |chunks| =>
      ChunkRow(chunks[i].seqNo, chunks[i].page, Text.Take(chunks[i].heading, 512), Text.Take(chunks[i].text, 8000)))
  }

  function Given(prefix: string, value: string): seq<string> { if value == "" then [] else [prefix + value] }

  /** The text that is embedded for a drawing. */
  function CardText(m: Meta): string {
    Join(" | ", Given("", m.title) + Given("", m.drawingNo) + Given("\U{C124}\U{BE44} ", m.equipment)
                + Given("\U{B77C}\U{C778} ", m.line) + Given("", m.description))
  }

  predicate IsPartOf(part: string, text: string) { exists i :: 0 <= i <= |text| && part <= text[i..] }

  lemma {:induction false} JoinHas(sep: string, parts: seq<string>, i: nat)
    requires i < |parts|
    ensures IsPartOf(parts[i], Join(sep, parts))
  {
    var text := Join(sep, parts);
    if i == 0 {
      assert text[0..] == text;
    } else {
      JoinHas(sep, parts[1..], i - 1);
      var rest := Join(sep, parts[1..]);
      var k :| 0 <= k <= |rest| && parts[1..][i - 1] <= rest[k..];
      assert text[|parts[0]| + |sep| + k..] == rest[k..];
    }
  }

  lemma GivenShown(before: seq<string>, prefix: string, value: string, after: seq<string>)
    ensures IsPartOf(value, Join(" | ", before + Given(prefix, value) + after))
  {
    var parts := before + Given(prefix, value) + after;
    var text := Join(" | ", parts);
    if value == "" {
      assert text[0..] == text;
    } else {
      assert parts[|before|] == prefix + value;
      JoinHas(" | ", parts, |before|);
      var k :| 0 <= k <= |text| && prefix + value <= text[k..];
      var from := k + |prefix|;
      assert from + |value| <= |text| && text[k..k + |prefix + value|] == prefix + value;
      assert text[from..from + |value|] == (prefix + value)[|prefix|..] == value;
      assert value <= text[from..];
    }
  }

  lemma JoinFive(sep: string, a: string, b: string, c: string, d: string, e: string)
    ensures Join(sep, [a, b, c, d, e]) == a + sep + b + sep + c + sep + d + sep + e
  {
    assert [a, b, c, d, e][1..] == [b, c, d, e] && [b, c, d, e][1..] == [c, d, e];
    assert [c, d, e][1..] == [d, e] && [d, e][1..] == [e];
    assert Join(sep, [d, e]) == d + sep + Join(sep, [e]);
    assert Join(sep, [c, d, e]) == c + sep + Join(sep, [d, e]);
    assert Join(sep, [b, c, d, e]) == b + sep + Join(sep, [c, d, e]);
  }

  /** The embedded text of a drawing contains each of its fields, and lists them in order when all are given. */
  lemma CardTextLists(m: Meta)
    ensures IsPartOf(m.title, CardText(m)) && IsPartOf(m.drawingNo, CardText(m)) && IsPartOf(m.equipment, CardText(m))
    ensures IsPartOf(m.line, CardText(m)) && IsPartOf(m.description, CardText(m))
    ensures "" !in {m.title, m.drawingNo, m.equipment, m.line, m.description} ==>
      CardText(m) == m.title + " | " + m.drawingNo + " | " + ("\U{C124}\U{BE44} " + m.equipment)
                     + " | " + ("\U{B77C}\U{C778} " + m.line) + " | " + m.description
  {
    var a, b, c := Given("", m.title), Given("", m.drawingNo), Given("\U{C124}\U{BE44} ", m.equipment);
    var d, e := Given("\U{B77C}\U{C778} ", m.line), Given("", m.description);
    var parts := a + b + c + d + e;
    assert parts == [] + a + (b + c + d + e) == a + b + (c + d + e) == (a + b) + c + (d + e);
    assert parts == (a + b + c) + d + e == (a + b + c + d) + e + [];
    GivenShown([], "", m.title, b + c + d + e);
    GivenShown(a, "", m.drawingNo, c + d + e);
    GivenShown(a + b, "\U{C124}\U{BE44} ", m.equipment, d + e);
    GivenShown(a + b + c, "\U{B77C}\U{C778} ", m.line, e);
    GivenShown(a + b + c + d, "", m.description, []);
    if "" !in {m.title, m.drawingNo, m.equipment, m.line, m.description} {
      assert parts == [a[0], b[0], c[0], d[0], e[0]];
      assert "" + m.title == m.title && "" + m.drawingNo == m.drawingNo && "" + m.description == m.description;
      JoinFive(" | ", a[0], b[0], c[0], d[0], e[0]);
    }
  }

  /** The rows that indexing the source produces. */
  function Rows(src: Source): seq<Row>
    requires Workable(src)
  {
    match src
    case File(_, _) => ChunkRows(FileChunks(src))
    case Card(m) =>
      [CardRow(Text.Take(m.title, 256), Text.Take(m.description, 2048), Text.Take(m.equipment, 64), m.revision,
               CardText(m))]
  }

  function ChangeMeta(m: Meta, c: Change): Meta {
    m.(title := if c.title.Some? then c.title.value else m.title,
       equipment := if c.equipment.Some? then c.equipment.value else m.equipment,
       line := if c.line.Some? then c.line.value else m.line,
       description := if c.description.Some? then c.description.value else m.description)
  }

  /** What the protocol needs to know about the documents it handles: which sources occur, and which rows
      they produce. */
  datatype Setup = Setup(kind: Kind, fits: Source -> bool, rows: Source -> seq<Row>)

  /** The set-up of the worker's pipelines. A file on which the chunker does not end yields no rows. */
  function Pipelines(kind: Kind): Setup {
    Setup(kind, src => FitsKind(kind, src) && Readable(src), src => if Workable(src) then Rows(src) else [])
  }
}
