/** From the lines of a manual to its numbered chunks: parsing and chunking together. */
module ManualText {
  import opened Text
  import opened PdfParser
  import opened Chunker

  /** `f"[{' > '.join(section.heading_path)}] "` */
  function Prefix(section: Section): string { "[" + HeadingText(section) + "] " }

  function HeadingText(section: Section): string { Join(" > ", section.path) }

  function Budget(section: Section, maxChars: nat): int { maxChars - |Prefix(section)| }

  /** The chunker ends for the section. */
  predicate SectionEnds(section: Section, maxChars: nat, overlap: nat) {
    BodyEnds(section.text, Budget(section, maxChars), overlap)
  }

  /** The chunker ends for every section. */
  predicate ChunkingEnds(sections: seq<Section>, maxChars: nat, overlap: nat) {
    forall i :: 0 <= i < |sections| ==> SectionEnds(sections[i], maxChars, overlap)
  }

  /** The chunker loses ink of the section. */
  predicate SectionLoses(section: Section, maxChars: nat, overlap: nat) {
    BodyLoses(section.text, Budget(section, maxChars), overlap)
  }

  /** The chunker loses ink of some section. */
  predicate ChunkingLoses(sections: seq<Section>, maxChars: nat, overlap: nat) {
    exists i :: 0 <= i < |sections| && SectionLoses(sections[i], maxChars, overlap)
  }

  /** Every section's budget is above the overlap. */
  predicate Roomy(sections: seq<Section>, maxChars: nat, overlap: nat) {
    forall i :: 0 <= i < |sections| ==> overlap < Budget(sections[i], maxChars)
  }

  /** Budgets above the overlap let the chunker end, and it loses nothing. */
  lemma RoomyIsSafe(sections: seq<Section>, maxChars: nat, overlap: nat)
    requires Roomy(sections, maxChars, overlap)
    ensures ChunkingEnds(sections, maxChars, overlap) && !ChunkingLoses(sections, maxChars, overlap)
  {
    forall i | 0 <= i < |sections|
      ensures SectionEnds(sections[i], maxChars, overlap) && !SectionLoses(sections[i], maxChars, overlap)
    {
      SplitsEnd(sections[i].text, Budget(sections[i], maxChars), overlap);
      SplitLosesNothing(sections[i].text, Budget(sections[i], maxChars), overlap);
    }
  }

  function SectionPieces(section: Section, maxChars: nat, overlap: nat): seq<Piece>
    requires SectionEnds(section, maxChars, overlap)
  {
    SplitBody(section.text, Budget(section, maxChars), overlap)
  }

  function MakeChunk(section: Section, seqNo: nat, piece: string): Chunk {
    Chunk(seqNo, section.page, HeadingText(section), Prefix(section) + piece)
  }

  function SectionChunks(section: Section, first: nat, pieces: seq<string>): (r: seq<Chunk>)
    ensures |r| == |pieces|
  {
    seq(|pieces|, i requires 0 <= i < |pieces| => MakeChunk(section, first + i, pieces[i]))
  }

  /** The pieces of every section. */
  function SplitAll(sections: seq<Section>, maxChars: nat, overlap: nat): (r: seq<seq<Piece>>)
    requires ChunkingEnds(sections, maxChars, overlap)
    ensures |r| == |sections|
    ensures forall i :: 0 <= i < |r| ==> r[i] == SectionPieces(sections[i], maxChars, overlap)
  {
    seq(|sections|, i requires 0 <= i < |sections| => SectionPieces(sections[i], maxChars, overlap))
  }

  /** Chunks from sections and their pieces, numbered through. */
  function Number(sections: seq<Section>, lists: seq<seq<Piece>>): seq<Chunk>
    requires |sections| == |lists|
  {
    if sections == [] then []
    else
      var n := |sections| - 1;
      var before := Number(sections[..n], lists[..n]);
      before + SectionChunks(sections[n], |before|, Chunker.Texts(lists[n]))
  }

  /** The chunks of `chunk_document_sync`. */
  function Chunks(sections: seq<Section>, maxChars: nat, overlap: nat): seq<Chunk>
    requires ChunkingEnds(sections, maxChars, overlap)
  {
    Number(sections, SplitAll(sections, maxChars, overlap))
  }

  /** `chunk_document_sync` */
  method ComputeChunks(sections: seq<Section>, maxChars: nat, overlap: nat) returns (chunks: seq<Chunk>)
    requires ChunkingEnds(sections, maxChars, overlap)
    ensures chunks == Chunks(sections, maxChars, overlap)
  {
    ghost var lists: seq<seq<Piece>> := SplitAll(sections, maxChars, overlap);
    chunks := [];
    for i := 0 to |sections|
      invariant chunks == Number(sections[..i], lists[..i])
    {
      assert SectionEnds(sections[i], maxChars, overlap);
      var pieces := ComputeSplitBody(sections[i].text, Budget(sections[i], maxChars), overlap);
      chunks := AppendPieces(chunks, sections[i], pieces);
      NumberStep(sections, lists, i);
    }
    assert sections[..|sections|] == sections && lists[..|lists|] == lists;
  }

  lemma NumberStep(sections: seq<Section>, lists: seq<seq<Piece>>, i: nat)
    requires |sections| == |lists| && i < |sections|
    ensures
      var before := Number(sections[..i], lists[..i]);
      Number(sections[..i + 1], lists[..i + 1])
      == before + SectionChunks(sections[i], |before|, Chunker.Texts(lists[i]))
  {
    assert sections[..i + 1][..i] == sections[..i] && lists[..i + 1][..i] == lists[..i];
  }

  method AppendPieces(before: seq<Chunk>, section: Section, pieces: seq<string>) returns (chunks: seq<Chunk>)
    ensures chunks == before + SectionChunks(section, |before|, pieces)
  {
    chunks := before;
    for j := 0 to |pieces|
      invariant chunks == before + SectionChunks(section, |before|, pieces)[..j]
    {
      chunks := chunks + [MakeChunk(section, |chunks|, pieces[j])];
    }
    assert SectionChunks(section, |before|, pieces)[..|pieces|] == SectionChunks(section, |before|, pieces);
  }

  // ---------------------------------------------------------------- what chunking promises

  lemma {:induction false} NumberNumbered(sections: seq<Section>, lists: seq<seq<Piece>>, maxChars: nat)
    requires |sections| == |lists|
    requires forall i, j :: 0 <= i < |sections| && 0 <= j < |lists[i]| ==>
               |lists[i][j].text| <= Budget(sections[i], maxChars)
    ensures
      var cs := Number(sections, lists);
      && (forall i :: 0 <= i < |cs| ==> cs[i].seqNo == i && |cs[i].text| <= maxChars)
      && (cs == [] <==> forall i :: 0 <= i < |lists| ==> lists[i] == [])
  {
    if sections != [] {
      var n := |sections| - 1;
      NumberNumbered(sections[..n], lists[..n], maxChars);
      assert (forall i :: 0 <= i < |lists| ==> lists[i] == [])
        <==> (forall i :: 0 <= i < n ==> lists[..n][i] == []) && lists[n] == [];
    }
  }

  lemma SplitAllFacts(sections: seq<Section>, maxChars: nat, overlap: nat, i: nat)
    requires ChunkingEnds(sections, maxChars, overlap) && i < |sections|
    ensures
      var list := SplitAll(sections, maxChars, overlap)[i];
      && (forall j :: 0 <= j < |list| ==> 0 < |list[j].text| <= Budget(sections[i], maxChars))
      && (list == [] <==> Strip(sections[i].text) == "")
      && Ink(Whole(list)) == Ink(sections[i].text)
      && (NothingSkipped(list) <==> !SectionLoses(sections[i], maxChars, overlap))
  {
    assert SectionEnds(sections[i], maxChars, overlap);
    var max := Budget(sections[i], maxChars);
    SplitConserves(sections[i].text, max, overlap);
    PieceLengths(SplitBody(sections[i].text, max, overlap), max, overlap);
    SkippedIffLoses(sections[i].text, max, overlap);
  }

  /** Chunks are numbered 0..n-1, none is longer than the limit, and there is one
      exactly when some section has text. */
  lemma ChunksNumbered(sections: seq<Section>, maxChars: nat, overlap: nat)
    requires ChunkingEnds(sections, maxChars, overlap)
    ensures
      var cs := Chunks(sections, maxChars, overlap);
      && (forall i :: 0 <= i < |cs| ==> cs[i].seqNo == i && |cs[i].text| <= maxChars)
      && (cs == [] <==> AllBlank(sections))
  {
    var lists: seq<seq<Piece>> := SplitAll(sections, maxChars, overlap);
    forall i: nat | i < |sections|
      ensures forall j :: 0 <= j < |lists[i]| ==> |lists[i][j].text| <= Budget(sections[i], maxChars)
      ensures lists[i] == [] <==> Strip(sections[i].text) == ""
    {
      SplitAllFacts(sections, maxChars, overlap, i);
    }
    NumberNumbered(sections, lists, maxChars);
  }

  function Flat(lists: seq<seq<Piece>>): seq<Piece> {
    if lists == [] then [] else Flat(lists[..|lists| - 1]) + lists[|lists| - 1]
  }

  /** The pieces behind all chunks of a document. */
  function DocumentPieces(sections: seq<Section>, maxChars: nat, overlap: nat): seq<Piece>
    requires ChunkingEnds(sections, maxChars, overlap)
  {
    Flat(SplitAll(sections, maxChars, overlap))
  }

  function SectionTexts(sections: seq<Section>): (r: seq<string>)
    ensures |r| == |sections|
  {
    seq(|sections|, i requires 0 <= i < |sections| => sections[i].text)
  }

  lemma {:induction false} WholeConcat(a: seq<Piece>, b: seq<Piece>)
    ensures Whole(a + b) == Whole(a) + Whole(b)
  {
    if b == [] {
      assert a + b == a;
      assert Whole(a) + "" == Whole(a);
    } else {
      var p := b[|b| - 1];
      assert (a + b)[..|a + b| - 1] == a + b[..|b| - 1];
      WholeConcat(a, b[..|b| - 1]);
      Associative(Whole(a), Whole(b[..|b| - 1]), p.skipped + NewPart(p));
    }
  }

  lemma {:induction false} FlatInk(sections: seq<Section>, lists: seq<seq<Piece>>)
    requires |sections| == |lists|
    requires forall i :: 0 <= i < |sections| ==> Ink(Whole(lists[i])) == Ink(sections[i].text)
    ensures Ink(Whole(Flat(lists))) == Ink(Concat(SectionTexts(sections)))
  {
    if sections != [] {
      var n := |sections| - 1;
      var init := sections[..n];
      FlatInk(init, lists[..n]);
      var before := Flat(lists[..n]);
      WholeConcat(before, lists[n]);
      InkConcat(Whole(before), Whole(lists[n]));
      assert SectionTexts(sections) == SectionTexts(init) + [sections[n].text];
      ConcatSnoc(SectionTexts(init), sections[n].text);
      InkConcat(Concat(SectionTexts(init)), sections[n].text);
    }
  }

  lemma {:induction false} FlatSkips(lists: seq<seq<Piece>>)
    ensures NothingSkipped(Flat(lists)) <==> forall i :: 0 <= i < |lists| ==> NothingSkipped(lists[i])
  {
    if lists != [] {
      var n := |lists| - 1;
      FlatSkips(lists[..n]);
      SkippedConcat(Flat(lists[..n]), lists[n]);
      assert (forall i :: 0 <= i < |lists| ==> NothingSkipped(lists[i]))
        <==> (forall i :: 0 <= i < n ==> NothingSkipped(lists[..n][i])) && NothingSkipped(lists[n]);
    }
  }

  lemma SkippedConcat(a: seq<Piece>, b: seq<Piece>)
    ensures NothingSkipped(a + b) <==> NothingSkipped(a) && NothingSkipped(b)
  {
    var c := a + b;
    assert forall i :: 0 <= i < |a| ==> c[i] == a[i];
    assert forall i :: 0 <= i < |b| ==> c[|a| + i] == b[i];
    assert forall i :: |a| <= i < |c| ==> c[i] == b[i - |a|];
  }

  /** The chunk has the section's page and joined heading path, and its text is this path in brackets, a space,
      and the piece. */
  predicate Shows(c: Chunk, section: Section, piece: string) {
    var path := Join(" > ", section.path);
    c.page == section.page && c.heading == path && c.text == "[" + path + "] " + piece
  }

  /** The chunks from `a` to before `b` show the section and these pieces. */
  ghost predicate ShowsSection(cs: seq<Chunk>, ps: seq<Piece>, a: nat, b: nat, section: Section, pieces: seq<Piece>)
    requires |cs| == |ps|
  {
    a <= b <= |cs| && ps[a..b] == pieces && forall i :: a <= i < b ==> Shows(cs[i], section, ps[i].text)
  }

  lemma ChunksOfSection(before: seq<Chunk>, done: seq<Piece>, section: Section, pieces: seq<Piece>)
    requires |before| == |done|
    ensures
      var mine := SectionChunks(section, |before|, Chunker.Texts(pieces));
      ShowsSection(before + mine, done + pieces, |before|, |before| + |pieces|, section, pieces)
  {
    var mine := SectionChunks(section, |before|, Chunker.Texts(pieces));
    forall j | 0 <= j < |mine| ensures Shows(mine[j], section, pieces[j].text) {
    }
  }

  lemma StillShows(cs: seq<Chunk>, ps: seq<Piece>, a: nat, b: nat, section: Section, pieces: seq<Piece>,
                   more: seq<Chunk>, morePieces: seq<Piece>)
    requires |cs| == |ps| && |more| == |morePieces| && ShowsSection(cs, ps, a, b, section, pieces)
    ensures ShowsSection(cs + more, ps + morePieces, a, b, section, pieces)
  {
    assert (ps + morePieces)[a..b] == ps[a..b];
  }

  lemma {:induction false} NumberShows(sections: seq<Section>, lists: seq<seq<Piece>>) returns (starts: seq<nat>)
    requires |sections| == |lists|
    ensures |Number(sections, lists)| == |Flat(lists)|
    ensures |starts| == |sections| + 1 && starts[0] == 0 && starts[|sections|] == |Flat(lists)|
    ensures forall k :: 0 <= k < |sections| ==>
      ShowsSection(Number(sections, lists), Flat(lists), starts[k], starts[k + 1], sections[k], lists[k])
  {
    if sections == [] {
      starts := [0];
    } else {
      var n := |sections| - 1;
      var init := NumberShows(sections[..n], lists[..n]);
      var before, ps := Number(sections[..n], lists[..n]), Flat(lists[..n]);
      var mine := SectionChunks(sections[n], |before|, Chunker.Texts(lists[n]));
      starts := init + [|ps| + |lists[n]|];
      ChunksOfSection(before, ps, sections[n], lists[n]);
      forall k | 0 <= k < n
        ensures ShowsSection(before + mine, ps + lists[n], starts[k], starts[k + 1], sections[k], lists[k])
      {
        assert starts[k] == init[k] && starts[k + 1] == init[k + 1];
        assert sections[..n][k] == sections[k] && lists[..n][k] == lists[k];
        StillShows(before, ps, init[k], init[k + 1], sections[k], lists[k], mine, lists[n]);
      }
    }
  }

  /** The chunks from `a` to before `b` are those of the section: they show its page and path, and the pieces that
      its text has for the budget which the bracketed path leaves. */
  ghost predicate AreChunksOf(cs: seq<Chunk>, ps: seq<Piece>, a: nat, b: nat, section: Section, maxChars: nat,
                              overlap: nat)
    requires |cs| == |ps|
  {
    && SectionEnds(section, maxChars, overlap)
    && ShowsSection(cs, ps, a, b, section, SplitBody(section.text, Budget(section, maxChars), overlap))
  }

  /** The chunks of a document are those of its sections, in order: the ones of section `k` are numbered from
      `starts[k]` to before `starts[k + 1]`. */
  lemma ChunksShowSections(sections: seq<Section>, maxChars: nat, overlap: nat) returns (starts: seq<nat>)
    requires ChunkingEnds(sections, maxChars, overlap)
    ensures |Chunks(sections, maxChars, overlap)| == |DocumentPieces(sections, maxChars, overlap)|
    ensures |starts| == |sections| + 1 && starts[0] == 0
    ensures starts[|sections|] == |Chunks(sections, maxChars, overlap)|
    ensures
      var cs, ps := Chunks(sections, maxChars, overlap), DocumentPieces(sections, maxChars, overlap);
      forall k :: 0 <= k < |sections| ==>
        AreChunksOf(cs, ps, starts[k], starts[k + 1], sections[k], maxChars, overlap)
    ensures forall k :: 0 <= k < |sections| ==>
      Budget(sections[k], maxChars) == maxChars - |"[" + Join(" > ", sections[k].path) + "] "|
  {
    var lists: seq<seq<Piece>> := SplitAll(sections, maxChars, overlap);
    var cs, ps := Number(sections, lists), Flat(lists);
    starts := NumberShows(sections, lists);
    forall k | 0 <= k < |sections|
      ensures AreChunksOf(cs, ps, starts[k], starts[k + 1], sections[k], maxChars, overlap)
    {
      assert SectionEnds(sections[k], maxChars, overlap);
    }
  }

  // ---------------------------------------------------------------- the new parts of the chunk texts

  /** What a chunk's text holds behind the bracketed heading and `dup` characters more. */
  function NewText(c: Chunk, dup: nat): string { Without(c.text, |"[" + c.heading + "] "| + dup) }

  /** The new parts of the chunks, joined. */
  function NewTexts(cs: seq<Chunk>, dups: seq<nat>): string
    requires |cs| == |dups|
  {
    if cs == [] then ""
    else NewTexts(cs[..|cs| - 1], dups[..|cs| - 1]) + NewText(cs[|cs| - 1], dups[|cs| - 1])
  }

  /** The first `dup` characters behind the heading of chunk `i` repeat the end of the chunk before, which has the
      same heading. */
  ghost predicate RepeatsEnd(cs: seq<Chunk>, i: nat, dup: nat, overlap: nat)
    requires i < |cs|
  {
    && dup <= overlap && dup <= |NewText(cs[i], 0)|
    && (dup > 0 ==> i > 0 && cs[i - 1].heading == cs[i].heading
                    && IsSuffix(Ink(NewText(cs[i], 0)[..dup]), Ink(NewText(cs[i - 1], 0))))
  }

  function Dups(pieces: seq<Piece>): (r: seq<nat>)
    ensures |r| == |pieces|
  {
    seq(|pieces|, i requires 0 <= i < |pieces| => pieces[i].dup)
  }

  lemma ShownText(c: Chunk, section: Section, p: Piece)
    requires Shows(c, section, p.text)
    ensures NewText(c, 0) == p.text && NewText(c, p.dup) == NewPart(p)
  {
    var prefix := "[" + c.heading + "] ";
    assert c.text == prefix + p.text && c.text[|prefix|..] == p.text;
    assert p.dup <= |p.text| ==> c.text[|prefix| + p.dup..] == p.text[p.dup..];
  }

  lemma {:induction false} SectionOf(starts: seq<nat>, n: nat, i: nat) returns (k: nat)
    requires n < |starts| && starts[0] <= i < starts[n]
    ensures k < n && starts[k] <= i < starts[k + 1]
  {
    if n > 0 && starts[n - 1] <= i {
      k := n - 1;
    } else {
      k := SectionOf(starts, n - 1, i);
    }
  }

  lemma {:induction false} FreshTexts(cs: seq<Chunk>, ps: seq<Piece>)
    requires |cs| == |ps| && forall i :: 0 <= i < |cs| ==> NewText(cs[i], ps[i].dup) == NewPart(ps[i])
    ensures NewTexts(cs, Dups(ps)) == Fresh(ps)
  {
    if cs != [] {
      var n := |cs| - 1;
      assert Dups(ps)[..n] == Dups(ps[..n]);
      FreshTexts(cs[..n], ps[..n]);
    }
  }

  lemma {:induction false} PieceRepeats(pieces: seq<Piece>, max: int, overlap: nat, j: nat)
    requires PiecesOk(pieces, max, overlap) && j < |pieces|
    ensures pieces[j].dup <= overlap && Repeats(pieces[..j], pieces[j].text, pieces[j].dup)
  {
    var n := |pieces| - 1;
    if j < n {
      PieceRepeats(pieces[..n], max, overlap, j);
      assert pieces[..n][..j] == pieces[..j];
    }
  }

  /** What a chunk shows of its section is new or repeats the chunk before. */
  lemma ShownRepeats(cs: seq<Chunk>, ps: seq<Piece>, a: nat, b: nat, section: Section, pieces: seq<Piece>, max: int,
                     overlap: nat, i: nat)
    requires |cs| == |ps| && ShowsSection(cs, ps, a, b, section, pieces) && a <= i < b
    requires PiecesOk(pieces, max, overlap)
    ensures RepeatsEnd(cs, i, ps[i].dup, overlap) && NewText(cs[i], ps[i].dup) == NewPart(ps[i])
  {
    PieceRepeats(pieces, max, overlap, i - a);
    assert ps[i] == pieces[i - a];
    ShownText(cs[i], section, ps[i]);
    if i > a {
      assert ps[i - 1] == pieces[i - 1 - a];
      ShownText(cs[i - 1], section, ps[i - 1]);
    }
  }

  lemma OwnRepeats(cs: seq<Chunk>, ps: seq<Piece>, a: nat, b: nat, section: Section, maxChars: nat, overlap: nat,
                   i: nat)
    requires |cs| == |ps| && AreChunksOf(cs, ps, a, b, section, maxChars, overlap) && a <= i < b
    ensures RepeatsEnd(cs, i, ps[i].dup, overlap) && NewText(cs[i], ps[i].dup) == NewPart(ps[i])
  {
    var max := Budget(section, maxChars);
    SplitConserves(section.text, max, overlap);
    ShownRepeats(cs, ps, a, b, section, SplitBody(section.text, max, overlap), max, overlap, i);
  }

  /** The new parts of the chunks' texts and what was skipped before them carry exactly the ink `body`, in order,
      the new parts alone if and only if nothing is lost; what is not new repeats the end of the chunk before. */
  ghost predicate Conserves(cs: seq<Chunk>, ps: seq<Piece>, body: string, loses: bool, overlap: nat) {
    && |cs| == |ps| && Ink(Whole(ps)) == body
    && NewTexts(cs, Dups(ps)) == Fresh(ps)
    && (Ink(NewTexts(cs, Dups(ps))) == body <==> !loses)
    && (forall i :: 0 <= i < |cs| ==> RepeatsEnd(cs, i, ps[i].dup, overlap))
  }

  lemma NewTextsAreFresh(sections: seq<Section>, maxChars: nat, overlap: nat)
    requires ChunkingEnds(sections, maxChars, overlap)
    ensures
      var cs, ps := Chunks(sections, maxChars, overlap), DocumentPieces(sections, maxChars, overlap);
      && |cs| == |ps| && NewTexts(cs, Dups(ps)) == Fresh(ps)
      && (forall i :: 0 <= i < |cs| ==> RepeatsEnd(cs, i, ps[i].dup, overlap))
  {
    var cs, ps := Chunks(sections, maxChars, overlap), DocumentPieces(sections, maxChars, overlap);
    var starts := ChunksShowSections(sections, maxChars, overlap);
    forall i | 0 <= i < |cs|
      ensures RepeatsEnd(cs, i, ps[i].dup, overlap) && NewText(cs[i], ps[i].dup) == NewPart(ps[i])
    {
      var k := SectionOf(starts, |sections|, i);
      OwnRepeats(cs, ps, starts[k], starts[k + 1], sections[k], maxChars, overlap, i);
    }
    FreshTexts(cs, ps);
  }

  /** Over a whole document, whenever the chunker ends, the chunks conserve the ink of all section texts. It is lost
      exactly when some section loses ink. */
  lemma ChunksConserve(sections: seq<Section>, maxChars: nat, overlap: nat)
    requires ChunkingEnds(sections, maxChars, overlap)
    ensures Conserves(Chunks(sections, maxChars, overlap), DocumentPieces(sections, maxChars, overlap),
                      Ink(Concat(SectionTexts(sections))), ChunkingLoses(sections, maxChars, overlap), overlap)
  {
    var lists: seq<seq<Piece>> := SplitAll(sections, maxChars, overlap);
    forall i | 0 <= i < |sections| ensures Ink(Whole(lists[i])) == Ink(sections[i].text) {
      SplitAllFacts(sections, maxChars, overlap, i);
    }
    FlatInk(sections, lists);
    SkipsLose(Flat(lists));
    SkippedIffChunkingLoses(sections, maxChars, overlap);
    NewTextsAreFresh(sections, maxChars, overlap);
  }

  lemma SkippedIffChunkingLoses(sections: seq<Section>, maxChars: nat, overlap: nat)
    requires ChunkingEnds(sections, maxChars, overlap)
    ensures NothingSkipped(DocumentPieces(sections, maxChars, overlap)) <==> !ChunkingLoses(sections, maxChars, overlap)
  {
    var lists: seq<seq<Piece>> := SplitAll(sections, maxChars, overlap);
    forall i | 0 <= i < |sections|
      ensures NothingSkipped(lists[i]) <==> !SectionLoses(sections[i], maxChars, overlap)
    {
      SplitAllFacts(sections, maxChars, overlap, i);
    }
    FlatSkips(lists);
  }

  predicate InPageOrder(chunks: seq<Chunk>) {
    forall i, j :: 0 <= i < j < |chunks| ==> chunks[i].page <= chunks[j].page
  }

  predicate UpToPage(chunks: seq<Chunk>, page: nat) {
    forall i :: 0 <= i < |chunks| ==> chunks[i].page <= page
  }

  lemma {:induction false} NumberPages(sections: seq<Section>, lists: seq<seq<Piece>>)
    requires |sections| == |lists| && PagesAscend(sections)
    ensures InPageOrder(Number(sections, lists))
    ensures UpToPage(Number(sections, lists), if sections == [] then 0 else sections[|sections| - 1].page)
  {
    if sections != [] {
      var n := |sections| - 1;
      NumberPages(sections[..n], lists[..n]);
      var before := Number(sections[..n], lists[..n]);
      var mine := SectionChunks(sections[n], |before|, Chunker.Texts(lists[n]));
      assert UpToPage(before, sections[n].page) by {
        if n > 0 { assert sections[n - 1].page <= sections[n].page; }
      }
      assert forall i :: 0 <= i < |mine| ==> mine[i].page == sections[n].page;
    }
  }

  /** For sections in page order, the chunks are in page order. */
  lemma ChunkPagesAscend(sections: seq<Section>, maxChars: nat, overlap: nat)
    requires ChunkingEnds(sections, maxChars, overlap) && PagesAscend(sections)
    ensures InPageOrder(Chunks(sections, maxChars, overlap))
  {
    NumberPages(sections, SplitAll(sections, maxChars, overlap));
  }

  // ---------------------------------------------------------------- parsing and chunking together

  datatype Outcome = Ok(chunks: seq<Chunk>) | NoText

  /** The first stage of the manual pipeline: parse, chunk, and fail when there is no chunk. */
  method ParseAndChunk(lines: seq<Line>, stem: string, maxChars: nat, overlap: nat) returns (r: Outcome)
    requires Collected(lines) && ChunkingEnds(Parse(lines, stem).sections, maxChars, overlap)
    ensures r == if lines == [] then NoText else Ok(Chunks(Parse(lines, stem).sections, maxChars, overlap))
  {
    var doc := ParsePdf(lines, stem);
    var chunks := ComputeChunks(doc.sections, maxChars, overlap);
    NoTextIffNoLines(lines, stem, maxChars, overlap);
    if chunks == [] { return NoText; }
    r := Ok(chunks);
  }

  /** The pipeline's "no text" error fires exactly for documents without a single line. */
  lemma NoTextIffNoLines(lines: seq<Line>, stem: string, maxChars: nat, overlap: nat)
    requires Collected(lines) && ChunkingEnds(Parse(lines, stem).sections, maxChars, overlap)
    ensures Chunks(Parse(lines, stem).sections, maxChars, overlap) == [] <==> lines == []
  {
    ChunksNumbered(Parse(lines, stem).sections, maxChars, overlap);
    ParsedBlank(lines, stem);
  }

  lemma ParsedBlank(lines: seq<Line>, stem: string)
    requires Collected(lines)
    ensures AllBlank(Parse(lines, stem).sections) <==> lines == []
  {
    MergeFallbackUnreachable(lines);
    var main := WithFallbacks(MainSections(lines));
    PathsKeepText(main, TitleText(lines, TitleFloor(lines)));
    if lines == [] {
      assert Strip("") == "";
    }
  }

  lemma PathsKeepText(sections: seq<Section>, title: string)
    ensures AllBlank(WithPaths(sections, title)) <==> AllBlank(sections)
  {
    var r := WithPaths(sections, title);
    assert forall i :: 0 <= i < |sections| ==> r[i].text == sections[i].text;
    if AllBlank(r) {
      forall i | 0 <= i < |sections| ensures Strip(sections[i].text) == "" {
        assert Strip(r[i].text) == "";
      }
    }
    if AllBlank(sections) {
      forall i | 0 <= i < |r| ensures Strip(r[i].text) == "" {
        assert Strip(sections[i].text) == "";
      }
    }
  }

  /** The ink of the lines that are not headings. */
  function LineInk(lines: seq<Line>, headingMin: real): string {
    if lines == [] then ""
    else
      var line := lines[|lines| - 1];
      LineInk(lines[..|lines| - 1], headingMin)
      + (if IsHeading(line.text, line.size, headingMin) then "" else Ink(line.text))
  }

  lemma {:induction false} SectionTextInk(lines: seq<Line>, headingMin: real)
    ensures Ink(Concat(SectionTexts(ToSections(Groups(lines, headingMin))))) == LineInk(lines, headingMin)
  {
    if lines != [] {
      var init, line := lines[..|lines| - 1], lines[|lines| - 1];
      assert lines == init + [line];
      SectionTextInk(init, headingMin);
      SectionStep(init, line, headingMin);
      AppendInk(ToSections(Groups(init, headingMin)), line, headingMin);
    }
  }

  lemma AppendInk(ss: seq<Section>, line: Line, headingMin: real)
    ensures Ink(Concat(SectionTexts(AppendSection(ss, line, headingMin))))
         == Ink(Concat(SectionTexts(ss))) + (if IsHeading(line.text, line.size, headingMin) then "" else Ink(line.text))
  {
    if IsHeading(line.text, line.size, headingMin) {
      NewSectionInk(ss, Section(line.text, line.page, "", []));
    } else if ss == [] {
      var fresh0 := [Section(INFO_HEADING, line.page, "", [])];
      NewSectionInk([], fresh0[0]);
      assert [] + fresh0 == fresh0;
      ExtendInk(fresh0, line.text);
    } else {
      ExtendInk(ss, line.text);
    }
  }

  lemma NewSectionInk(ss: seq<Section>, s: Section)
    requires s.text == ""
    ensures Ink(Concat(SectionTexts(ss + [s]))) == Ink(Concat(SectionTexts(ss)))
  {
    assert SectionTexts(ss + [s]) == SectionTexts(ss) + [""];
    ConcatSnoc(SectionTexts(ss), "");
    assert Concat(SectionTexts(ss)) + "" == Concat(SectionTexts(ss));
  }

  lemma AddedInk(head: string, last: string, text: string)
    ensures Ink(head + (last + (text + "\n"))) == Ink(head + last) + Ink(text)
  {
    assert head + (last + (text + "\n")) == (head + last) + (text + "\n");
    InkConcat(head + last, text + "\n");
    InkConcat(text, "\n");
    InkBlank("\n");
  }

  lemma ExtendInk(ss: seq<Section>, text: string)
    requires ss != []
    ensures Ink(Concat(SectionTexts(ExtendLast(ss, text + "\n")))) == Ink(Concat(SectionTexts(ss))) + Ink(text)
  {
    var init, last, added := ss[..|ss| - 1], ss[|ss| - 1].text, text + "\n";
    assert SectionTexts(ss) == SectionTexts(init) + [last];
    assert SectionTexts(ExtendLast(ss, added)) == SectionTexts(init) + [last + added];
    ConcatSnoc(SectionTexts(init), last);
    ConcatSnoc(SectionTexts(init), last + added);
    AddedInk(Concat(SectionTexts(init)), last, text);
  }

  /** The ink of the lines that are neither the title nor a heading. */
  function BodyInk(lines: seq<Line>): string {
    LineInk(Untitled(lines, TitleFloor(lines)), HeadingMin(lines))
  }

  /** From lines to chunks, whenever the chunker ends: the new parts of the chunks' texts and what the hard split
      skipped carry every non-whitespace character of every line that is neither the title nor a heading, in
      document order. Ink is lost exactly when some section loses ink, and never with budgets above the overlap.
      What is not new in a chunk repeats the end of the chunk before it. */
  lemma IngestConservesText(lines: seq<Line>, stem: string, maxChars: nat, overlap: nat)
    requires Collected(lines) && ChunkingEnds(Parse(lines, stem).sections, maxChars, overlap)
    ensures
      var sections := Parse(lines, stem).sections;
      && Conserves(Chunks(sections, maxChars, overlap), DocumentPieces(sections, maxChars, overlap),
                   BodyInk(lines), ChunkingLoses(sections, maxChars, overlap), overlap)
      && (Roomy(sections, maxChars, overlap) ==> !ChunkingLoses(sections, maxChars, overlap))
  {
    var sections := Parse(lines, stem).sections;
    ChunksConserve(sections, maxChars, overlap);
    SectionTextInk(Untitled(lines, TitleFloor(lines)), HeadingMin(lines));
    ParsedTexts(lines, stem);
    if Roomy(sections, maxChars, overlap) {
      RoomyIsSafe(sections, maxChars, overlap);
    }
  }

  /** The ink of the parsed sections is the ink of the main pass. */
  lemma ParsedTexts(lines: seq<Line>, stem: string)
    requires Collected(lines)
    ensures Ink(Concat(SectionTexts(Parse(lines, stem).sections))) == Ink(Concat(SectionTexts(MainSections(lines))))
  {
    MergeFallbackUnreachable(lines);
    var main := WithFallbacks(MainSections(lines));
    assert SectionTexts(WithPaths(main, TitleText(lines, TitleFloor(lines)))) == SectionTexts(main);
    if lines == [] {
      assert SectionTexts(main) == [""];
      assert Concat([""]) == "";
    }
  }

  /** For lines in page order the chunks of the parsed document are in page order. */
  lemma IngestPagesAscend(lines: seq<Line>, stem: string, maxChars: nat, overlap: nat)
    requires Collected(lines) && PageOrdered(lines)
    requires ChunkingEnds(Parse(lines, stem).sections, maxChars, overlap)
    ensures InPageOrder(Chunks(Parse(lines, stem).sections, maxChars, overlap))
  {
    SectionPagesAscend(lines);
    MergeFallbackUnreachable(lines);
    assert PagesAscend(Parse(lines, stem).sections);
    ChunkPagesAscend(Parse(lines, stem).sections, maxChars, overlap);
  }
}
