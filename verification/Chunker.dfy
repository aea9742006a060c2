/** The worker's chunker: paragraph packing with an overlap tail, and hard splits of long paragraphs. */
module Chunker {
  import opened Text

  /** A piece of a section body. Its first `dup` characters repeat the end of the piece before it, and
      `skipped` is text that the hard split dropped in front of it. */
  datatype Piece = Piece(text: string, dup: nat, skipped: string)

  /** The state of the packing loop: finished pieces and the text being collected. */
  datatype Pack = Pack(pieces: seq<Piece>, current: string, dup: nat, skipped: string)

  datatype Chunk = Chunk(seqNo: nat, page: nat, heading: string, text: string)

  const EMPTY := Pack([], "", 0, "")

  // ---------------------------------------------------------------- the packing loop as a function

  function Flush(s: Pack): Pack {
    if Strip(s.current) == "" then Pack(s.pieces, "", 0, "")
    else
      var k := LeadingSpace(s.current);
      Pack(s.pieces + [Piece(Strip(s.current), if s.dup <= k then 0 else s.dup - k, s.skipped)], "", 0, "")
  }

  /** `pieces[-1][-overlap:] if overlap and pieces else ""` */
  function Tail(pieces: seq<Piece>, overlap: nat): string {
    if overlap == 0 || pieces == [] then "" else Last(pieces[|pieces| - 1].text, overlap)
  }

  /** The text that starts after a flush: the overlap tail, a space and the paragraph. */
  function Restart(s: Pack, paragraph: string, overlap: nat): Pack {
    var current := Glue(Tail(s.pieces, overlap), paragraph);
    Pack(s.pieces, current, if |paragraph| < |current| then |current| - |paragraph| - 1 else 0, "")
  }

  /** `f"{tail} {paragraph}".strip() if tail else paragraph` */
  function Glue(tail: string, paragraph: string): string {
    if tail != "" then Strip(tail + " " + paragraph) else paragraph
  }

  /** `s[k:]` for any integer `k`, as Python slices. */
  function SliceFrom(s: string, k: int): (r: string)
    ensures |r| == if k < 0 then Min(-k, |s|) else if k <= |s| then |s| - k else 0
  {
    if k < 0 then Last(s, -k) else if k <= |s| then s[k..] else ""
  }

  /** The hard split of an over-long text ends for exactly these settings, see `HardSplitTerminates`. */
  predicate Splits(max: int, overlap: nat) { overlap != max && overlap <= 2 * max }

  /** Where the text goes on after a cut. With an overlap above the budget the slice counts from the end. */
  function ResumeAt(c: string, max: int, overlap: nat): (from: nat)
    requires Splits(max, overlap) && |c| > max
    ensures 0 < max && 0 < from < |c| && SliceFrom(c, max - overlap) == c[from..]
    ensures from <= max ==> max - from <= overlap
    ensures from > max <==> max < overlap < |c|
  {
    if overlap < max then max - overlap else |c| - (overlap - max)
  }

  /** One cut of the hard split, and back by the overlap. What lies between the cut and a later start is
      skipped. */
  function Cut(s: Pack, max: int, overlap: nat): Pack
    requires Splits(max, overlap) && |s.current| > max
  {
    var c, from := s.current, ResumeAt(s.current, max, overlap);
    Pack(s.pieces + [Piece(c[..max], s.dup, s.skipped)], c[from..],
         if from <= max then max - from else 0, if from <= max then "" else c[max..from])
  }

  /** The hard split. Where it does not end, nothing is cut; what is said below about pieces is said of
      bodies on which every hard split ends, see `BodyEnds`. */
  function HardSplit(s: Pack, max: int, overlap: nat): Pack
    decreases |s.current|
  {
    if |s.current| <= max || !Splits(max, overlap) then s else HardSplit(Cut(s, max, overlap), max, overlap)
  }

  /** The paragraph still fits into the collected text. */
  predicate Joins(s: Pack, paragraph: string, max: int) { |s.current| + |paragraph| + 1 <= max }

  /** The loop body ends for this paragraph. */
  predicate AddEnds(s: Pack, paragraph: string, max: int, overlap: nat) {
    Joins(s, paragraph, max) || |Restart(Flush(s), paragraph, overlap).current| <= max || Splits(max, overlap)
  }

  function AddParagraph(s: Pack, paragraph: string, max: int, overlap: nat): Pack {
    if Joins(s, paragraph, max) then
      s.(current := if s.current != "" then s.current + "\n" + paragraph else paragraph)
    else HardSplit(Restart(Flush(s), paragraph, overlap), max, overlap)
  }

  function PackAll(paragraphs: seq<string>, max: int, overlap: nat): Pack {
    if paragraphs == [] then EMPTY
    else AddParagraph(PackAll(paragraphs[..|paragraphs| - 1], max, overlap), paragraphs[|paragraphs| - 1], max, overlap)
  }

  lemma PackAllStep(paragraphs: seq<string>, i: nat, max: int, overlap: nat)
    requires i < |paragraphs|
    ensures PackAll(paragraphs[..i + 1], max, overlap)
         == AddParagraph(PackAll(paragraphs[..i], max, overlap), paragraphs[i], max, overlap)
  {
    assert paragraphs[..i + 1][..i] == paragraphs[..i];
  }

  /** Every iteration of the loop over the paragraphs ends. */
  predicate PackEnds(paragraphs: seq<string>, max: int, overlap: nat) {
    forall i :: 0 <= i < |paragraphs| ==> AddEnds(PackAll(paragraphs[..i], max, overlap), paragraphs[i], max, overlap)
  }

  /** `_split_body` ends for this section body. */
  predicate BodyEnds(text: string, max: int, overlap: nat) { PackEnds(Paragraphs(text), max, overlap) }

  /** The pieces of a section body. */
  function SplitBody(text: string, max: int, overlap: nat): seq<Piece>
    requires BodyEnds(text, max, overlap)
  {
    Flush(PackAll(Paragraphs(text), max, overlap)).pieces
  }

  function Texts(pieces: seq<Piece>): (r: seq<string>)
    ensures |r| == |pieces|
    ensures forall i :: 0 <= i < |r| ==> r[i] == pieces[i].text
  {
    seq(|pieces|, i requires 0 <= i < |pieces| => pieces[i].text)
  }

  lemma TextsSnoc(pieces: seq<Piece>, p: Piece)
    ensures Texts(pieces + [p]) == Texts(pieces) + [p.text]
  {
  }

  // ---------------------------------------------------------------- the loop itself

  /** `_split_body`, for every input on which it ends. */
  method ComputeSplitBody(text: string, max: int, overlap: nat) returns (pieces: seq<string>)
    requires BodyEnds(text, max, overlap)
    ensures pieces == Texts(SplitBody(text, max, overlap))
  {
    var paragraphs := Paragraphs(text);
    var current := "";
    pieces := [];
    ghost var s := EMPTY;
    for i := 0 to |paragraphs|
      invariant s == PackAll(paragraphs[..i], max, overlap)
      invariant pieces == Texts(s.pieces) && current == s.current
    {
      PackAllStep(paragraphs, i, max, overlap);
      pieces, current := DoParagraph(pieces, current, paragraphs[i], max, overlap, s);
      s := AddParagraph(s, paragraphs[i], max, overlap);
    }
    assert paragraphs[..|paragraphs|] == paragraphs;
    pieces := DoFlush(pieces, current, s);
  }

  /** The body of the paragraph loop. */
  method DoParagraph(before: seq<string>, text: string, paragraph: string, max: int, overlap: nat, ghost s: Pack)
      returns (pieces: seq<string>, current: string)
    requires AddEnds(s, paragraph, max, overlap)
    requires before == Texts(s.pieces) && text == s.current
    ensures pieces == Texts(AddParagraph(s, paragraph, max, overlap).pieces)
    ensures current == AddParagraph(s, paragraph, max, overlap).current
  {
    if |text| + |paragraph| + 1 <= max {
      return before, if text != "" then text + "\n" + paragraph else paragraph;
    }
    pieces := DoFlush(before, text, s);
    pieces, current := DoRestart(pieces, paragraph, max, overlap, Flush(s));
  }

  /** `flush`: the collected text becomes a piece, unless it is blank. */
  method DoFlush(pieces: seq<string>, current: string, ghost s: Pack) returns (flushed: seq<string>)
    requires pieces == Texts(s.pieces) && current == s.current
    ensures flushed == Texts(Flush(s).pieces)
  {
    flushed := pieces;
    if Strip(current) != "" {
      flushed := flushed + [Strip(current)];
    }
  }

  /** The new text after a flush, hard-split while it is over budget. */
  method DoRestart(before: seq<string>, paragraph: string, max: int, overlap: nat, ghost s: Pack)
      returns (pieces: seq<string>, current: string)
    requires |Restart(s, paragraph, overlap).current| <= max || Splits(max, overlap)
    requires before == Texts(s.pieces)
    ensures pieces == Texts(HardSplit(Restart(s, paragraph, overlap), max, overlap).pieces)
    ensures current == HardSplit(Restart(s, paragraph, overlap), max, overlap).current
  {
    var tail := if overlap != 0 && before != [] then Last(before[|before| - 1], overlap) else "";
    assert tail == Tail(s.pieces, overlap);
    current := Glue(tail, paragraph);
    pieces, current := DoHardSplit(before, current, max, overlap, Restart(s, paragraph, overlap));
  }

  method DoHardSplit(before: seq<string>, text: string, max: int, overlap: nat, ghost s: Pack)
      returns (pieces: seq<string>, current: string)
    requires |text| <= max || Splits(max, overlap)
    requires before == Texts(s.pieces) && text == s.current
    ensures pieces == Texts(HardSplit(s, max, overlap).pieces)
    ensures current == HardSplit(s, max, overlap).current
  {
    pieces, current := before, text;
    ghost var r := s;
    while |current| > max
      invariant |current| <= max || Splits(max, overlap)
      invariant pieces == Texts(r.pieces) && current == r.current
      invariant HardSplit(r, max, overlap) == HardSplit(s, max, overlap)
      decreases |current|
    {
      TextsSnoc(r.pieces, Piece(current[..max], r.dup, r.skipped));
      pieces := pieces + [current[..max]];
      current := SliceFrom(current, max - overlap);
      r := Cut(r, max, overlap);
    }
  }

  // ---------------------------------------------------------------- the shape of the loop's state

  function LastLength(pieces: seq<Piece>): nat { if pieces == [] then 0 else |pieces[|pieces| - 1].text| }

  /** The duplicated prefix is no longer than the overlap and the piece it repeats, and it is not the whole
      text; the text collected so far ends in ink. */
  ghost predicate Shaped(s: Pack, max: int, overlap: nat) {
    && s.dup <= overlap && s.dup <= LastLength(s.pieces)
    && (s.pieces != [] ==> LastLength(s.pieces) <= max)
    && (if s.current == "" then s.dup == 0 && s.skipped == ""
        else s.dup < |s.current| && !IsSpace(s.current[|s.current| - 1]))
  }

  /** Dropping `k` leading spaces moves no ink across the border of the duplicated prefix. */
  lemma DropSpace(c: string, k: nat, d: nat)
    requires k <= |c| && d <= |c| && Ink(c[..k]) == ""
    ensures d <= k ==> Ink(c[k..]) == Ink(c[d..]) && Ink(c[..d]) == ""
    ensures d > k ==> Ink(c[k..][..d - k]) == Ink(c[..d]) && c[k..][d - k..] == c[d..]
  {
    if d <= k {
      InkCut(c[..k], d);
      assert c[..k][..d] == c[..d];
      InkCut(c[d..], k - d);
      assert c[d..][..k - d] == c[..k][d..];
      assert c[d..][k - d..] == c[k..];
    } else {
      InkCut(c[..d], k);
      assert c[..d][..k] == c[..k];
      assert c[..d][k..] == c[k..][..d - k];
    }
  }

  /** What stripping does to a text that ends in ink and whose first `d` characters are duplicates. */
  lemma StripMarked(c: string, d: nat) returns (t: string, e: nat)
    requires d < |c| && !IsSpace(c[|c| - 1])
    ensures var k := LeadingSpace(c); t == Strip(c) && |t| == |c| - k && e == if d <= k then 0 else d - k
    ensures e < |t| && e <= d
    ensures Ink(t[e..]) == Ink(c[d..])
    ensures Ink(t[..e]) == Ink(c[..d])
  {
    var k := LeadingSpace(c);
    t, e := c[k..], if d <= k then 0 else d - k;
    assert t[|t| - 1] == c[|c| - 1];
    assert TrimmedLength(t) == |t|;
    assert Strip(c) == t;
    InkBlank(c[..k]);
    DropSpace(c, k, d);
    assert t[0..] == t;
  }

  /** The piece that a flush adds. */
  lemma FlushPiece(s: Pack) returns (p: Piece)
    requires s.current != "" && s.dup < |s.current| && !IsSpace(s.current[|s.current| - 1])
    ensures Flush(s) == Pack(s.pieces + [p], "", 0, "") && p.skipped == s.skipped
    ensures 0 < |p.text| <= |s.current| && p.dup < |p.text| && p.dup <= s.dup
    ensures Ink(p.text[p.dup..]) == Ink(s.current[s.dup..])
    ensures Ink(p.text[..p.dup]) == Ink(s.current[..s.dup])
  {
    var t, d := StripMarked(s.current, s.dup);
    p := Piece(t, d, s.skipped);
  }

  lemma FlushShape(s: Pack, max: int, overlap: nat)
    requires Shaped(s, max, overlap) && |s.current| <= max
    ensures Shaped(Flush(s), max, overlap) && Flush(s).current == ""
    ensures s.current != "" ==> Flush(s).pieces != []
  {
    if s.current != "" {
      var p := FlushPiece(s);
    }
  }

  lemma LeadingSpaceBefore(c: string, i: nat)
    requires i < |c| && !IsSpace(c[i])
    ensures LeadingSpace(c) <= i
  {
    var k := LeadingSpace(c);
    assert forall j :: 0 <= j < k ==> IsSpace(c[..k][j]) && c[..k][j] == c[j];
  }

  /** A tail, a space and a paragraph: stripping ends in the tail or right before the paragraph. */
  lemma GlueSpace(tail: string, p: string, c: string)
    requires IsParagraph(p) && c == tail + " " + p
    ensures LeadingSpace(c) <= |tail| + 1 && LeadingSpace(c) != |tail|
  {
    assert c[|tail| + 1] == p[0] && c[|tail|] == ' ';
    LeadingSpaceBefore(c, |tail| + 1);
  }

  lemma GlueInk(tail: string, p: string, c: string)
    requires IsParagraph(p) && c == tail + " " + p
    ensures |c| == |tail| + 1 + |p| && !IsSpace(c[|c| - 1])
    ensures c[..|tail|] == tail && Ink(c[|tail|..]) == Ink(p)
  {
    assert c[|tail|..] == " " + p;
    SpaceInk(p);
  }

  lemma SpaceInk(p: string)
    ensures Ink(" " + p) == Ink(p)
  {
    assert (" " + p)[1..] == p;
  }

  /** Gluing the overlap tail to a paragraph strips only the tail. */
  lemma GlueText(tail: string, p: string) returns (t: string, d: nat)
    requires IsParagraph(p)
    ensures t == Glue(tail, p) && d == (if |p| < |t| then |t| - |p| - 1 else 0) && d < |t| && d <= |tail|
    ensures Ink(t[d..]) == Ink(p) && !IsSpace(t[|t| - 1])
    ensures Ink(t[..d]) == Ink(tail)
  {
    if tail == "" {
      t, d := p, 0;
      assert t[0..] == t;
    } else {
      t, d := GlueTail(tail, p, tail + " " + p);
    }
  }

  lemma GlueTail(tail: string, p: string, c: string) returns (t: string, d: nat)
    requires IsParagraph(p) && c == tail + " " + p
    ensures t == Strip(c) && d == (if |p| < |t| then |t| - |p| - 1 else 0) && d < |t| && d <= |tail|
    ensures Ink(t[d..]) == Ink(p) && Ink(t[..d]) == Ink(tail)
  {
    GlueSpace(tail, p, c);
    GlueInk(tail, p, c);
    t, d := StripMarked(c, |tail|);
  }

  lemma RestartShape(s: Pack, p: string, max: int, overlap: nat)
    requires Shaped(s, max, overlap) && IsParagraph(p)
    ensures Shaped(Restart(s, p, overlap), max, overlap) && Restart(s, p, overlap).current != ""
  {
    var t, d := GlueText(Tail(s.pieces, overlap), p);
  }

  lemma CutShape(s: Pack, max: int, overlap: nat)
    requires Shaped(s, max, overlap) && Splits(max, overlap) && |s.current| > max
    ensures Shaped(Cut(s, max, overlap), max, overlap) && Cut(s, max, overlap).current != ""
  {
    var c, from := s.current, ResumeAt(s.current, max, overlap);
    assert c[from..][|c| - from - 1] == c[|c| - 1];
  }

  lemma {:induction false} HardSplitShape(s: Pack, max: int, overlap: nat)
    requires Shaped(s, max, overlap) && s.current != "" && (|s.current| <= max || Splits(max, overlap))
    ensures Shaped(HardSplit(s, max, overlap), max, overlap) && 0 < |HardSplit(s, max, overlap).current| <= max
    decreases |s.current|
  {
    if |s.current| > max {
      CutShape(s, max, overlap);
      HardSplitShape(Cut(s, max, overlap), max, overlap);
    }
  }

  /** The loop's states: nothing was collected yet, or the text fits the budget. */
  ghost predicate Packed(s: Pack, max: int, overlap: nat) {
    Shaped(s, max, overlap) && (if s.current == "" then s == EMPTY else |s.current| <= max)
  }

  lemma AddShape(s: Pack, p: string, max: int, overlap: nat)
    requires Packed(s, max, overlap) && AddEnds(s, p, max, overlap) && IsParagraph(p)
    ensures Packed(AddParagraph(s, p, max, overlap), max, overlap) && AddParagraph(s, p, max, overlap).current != ""
  {
    if !Joins(s, p, max) {
      FlushedShape(s, max, overlap);
      RestartShape(Flush(s), p, max, overlap);
      HardSplitShape(Restart(Flush(s), p, overlap), max, overlap);
    }
  }

  lemma FlushedShape(s: Pack, max: int, overlap: nat)
    requires Packed(s, max, overlap)
    ensures Shaped(Flush(s), max, overlap) && Flush(s).current == ""
  {
    if s.current == "" {
      assert Flush(EMPTY) == EMPTY;
    } else {
      FlushShape(s, max, overlap);
    }
  }

  lemma PrefixEnds(ps: seq<string>, max: int, overlap: nat)
    requires PackEnds(ps, max, overlap) && ps != []
    ensures
      var init := ps[..|ps| - 1];
      PackEnds(init, max, overlap) && AddEnds(PackAll(init, max, overlap), ps[|ps| - 1], max, overlap)
  {
    var init := ps[..|ps| - 1];
    forall i | 0 <= i < |init| ensures AddEnds(PackAll(init[..i], max, overlap), init[i], max, overlap) {
      assert init[..i] == ps[..i];
    }
  }

  lemma {:induction false} PackShape(ps: seq<string>, max: int, overlap: nat)
    requires PackEnds(ps, max, overlap)
    requires forall i :: 0 <= i < |ps| ==> IsParagraph(ps[i])
    ensures Packed(PackAll(ps, max, overlap), max, overlap)
    ensures PackAll(ps, max, overlap).current == "" <==> ps == []
  {
    if ps != [] {
      var n := |ps| - 1;
      PrefixEnds(ps, max, overlap);
      PackShape(ps[..n], max, overlap);
      AddShape(PackAll(ps[..n], max, overlap), ps[n], max, overlap);
    }
  }

  // ---------------------------------------------------------------- the text it carries

  /** `text` without its first `dup` characters. */
  function Without(text: string, dup: nat): string { if dup <= |text| then text[dup..] else "" }

  /** The part of a piece that is not duplicated. */
  function NewPart(p: Piece): string { Without(p.text, p.dup) }

  /** The pieces without their duplicated prefixes, joined. */
  function Fresh(pieces: seq<Piece>): string {
    if pieces == [] then "" else Fresh(pieces[..|pieces| - 1]) + NewPart(pieces[|pieces| - 1])
  }

  /** The same with the text the hard split skipped. */
  function Whole(pieces: seq<Piece>): string {
    if pieces == [] then ""
    else
      var p := pieces[|pieces| - 1];
      Whole(pieces[..|pieces| - 1]) + (p.skipped + NewPart(p))
  }

  /** The text that is collected but not yet in a piece. */
  function Pending(s: Pack): string { s.skipped + Without(s.current, s.dup) }

  /** All ink consumed so far. */
  function Carried(s: Pack): string { Ink(Whole(s.pieces)) + Ink(Pending(s)) }

  lemma WholeSnoc(pieces: seq<Piece>, p: Piece)
    ensures Ink(Whole(pieces + [p])) == Ink(Whole(pieces)) + (Ink(p.skipped) + Ink(NewPart(p)))
  {
    assert (pieces + [p])[..|pieces|] == pieces;
    InkConcat(Whole(pieces), p.skipped + NewPart(p));
    InkConcat(p.skipped, NewPart(p));
  }

  lemma Regroup(w: string, k: string, a: string, n: string)
    ensures w + (k + (a + n)) == (w + (k + a)) + n
  {
  }

  /** Moving text from `current` into a new piece, and leaving `pending`, keeps the text. */
  lemma EmitCarries(s: Pack, p: Piece, pending: string)
    requires s.dup <= |s.current| && p.skipped == s.skipped
    requires Ink(s.current[s.dup..]) == Ink(NewPart(p)) + Ink(pending)
    ensures Ink(Whole(s.pieces + [p])) + Ink(pending) == Carried(s)
  {
    WholeSnoc(s.pieces, p);
    InkConcat(s.skipped, s.current[s.dup..]);
    Regroup(Ink(Whole(s.pieces)), Ink(s.skipped), Ink(NewPart(p)), Ink(pending));
  }

  lemma FlushCarries(s: Pack, max: int, overlap: nat)
    requires Shaped(s, max, overlap)
    ensures Carried(Flush(s)) == Carried(s)
  {
    if s.current != "" {
      var p := FlushPiece(s);
      EmitLast(s, p);
    }
  }

  /** The last piece: nothing is left. */
  lemma EmitLast(s: Pack, p: Piece)
    requires s.dup <= |s.current| && p.skipped == s.skipped && Ink(NewPart(p)) == Ink(s.current[s.dup..])
    ensures Carried(Pack(s.pieces + [p], "", 0, "")) == Carried(s)
  {
    assert Ink(NewPart(p)) + Ink("") == Ink(NewPart(p));
    EmitCarries(s, p, "");
  }

  lemma RestartCarries(s: Pack, p: string, overlap: nat)
    requires s.current == "" && s.skipped == "" && IsParagraph(p)
    ensures Carried(Restart(s, p, overlap)) == Carried(s) + Ink(p)
  {
    var t, d := GlueText(Tail(s.pieces, overlap), p);
    BeginCarries(s, Restart(s, p, overlap), p);
  }

  lemma BeginCarries(s: Pack, t: Pack, p: string)
    requires s.current == "" && s.skipped == "" && t.pieces == s.pieces && t.skipped == ""
    requires t.dup <= |t.current| && Ink(t.current[t.dup..]) == Ink(p)
    ensures Carried(t) == Carried(s) + Ink(p)
  {
    assert Pending(t) == t.current[t.dup..];
    assert Pending(s) == "" && Ink(Whole(s.pieces)) + "" == Ink(Whole(s.pieces));
  }

  /** One cut: what is cut off, skipped and left makes up the text, and what is duplicated is the end of
      what is cut off. */
  lemma CutText(c: string, t: Pack, from: nat, max: nat)
    requires max < |c| && from < |c| && t.current == c[from..] && t.dup <= |t.current|
    requires if from <= max then t.dup == max - from && t.skipped == "" else t.dup == 0 && t.skipped == c[max..from]
    ensures Pending(t) == c[max..] && t.current[..t.dup] == c[..max][max - t.dup..]
  {
    if from <= max {
      Slices(c, from, max);
      assert "" + c[max..] == c[max..];
    } else {
      assert c[max..from] + c[from..] == c[max..];
      assert c[from..][0..] == c[from..];
    }
  }

  lemma Slices(c: string, from: nat, to: nat)
    requires from <= to <= |c|
    ensures c[from..][to - from..] == c[to..] && c[from..][..to - from] == c[..to][from..]
  {
  }

  lemma CutInk(c: string, d: nat, max: nat)
    requires d <= max < |c|
    ensures Ink(c[d..]) == Ink(c[..max][d..]) + Ink(c[max..])
  {
    InkCut(c[d..], max - d);
    Slices(c, d, max);
  }

  lemma CutCarries(s: Pack, max: int, overlap: nat)
    requires Shaped(s, max, overlap) && Splits(max, overlap) && |s.current| > max
    ensures Carried(Cut(s, max, overlap)) == Carried(s)
  {
    var c, t := s.current, Cut(s, max, overlap);
    CutText(c, t, ResumeAt(c, max, overlap), max);
    CutInk(c, s.dup, max);
    EmitCarries(s, Piece(c[..max], s.dup, s.skipped), c[max..]);
  }

  lemma {:induction false} HardSplitCarries(s: Pack, max: int, overlap: nat)
    requires Shaped(s, max, overlap) && s.current != ""
    ensures Carried(HardSplit(s, max, overlap)) == Carried(s)
    decreases |s.current|
  {
    if |s.current| > max && Splits(max, overlap) {
      CutShape(s, max, overlap);
      CutCarries(s, max, overlap);
      HardSplitCarries(Cut(s, max, overlap), max, overlap);
    }
  }

  /** A paragraph is joined to `current`. */
  lemma JoinInk(c: string, d: nat, p: string, skipped: string)
    requires d <= |c|
    ensures Ink(skipped + (c + "\n" + p)[d..]) == Ink(skipped + c[d..]) + Ink(p)
    ensures (c + "\n" + p)[..d] == c[..d]
  {
    assert skipped + (c + "\n" + p)[d..] == (skipped + c[d..]) + ("\n" + p);
    InkConcat(skipped + c[d..], "\n" + p);
    InkConcat("\n", p);
    InkBlank("\n");
  }

  lemma JoinCarries(s: Pack, p: string, max: int, overlap: nat)
    requires Packed(s, max, overlap)
    ensures Carried(s.(current := if s.current != "" then s.current + "\n" + p else p)) == Carried(s) + Ink(p)
  {
    if s.current == "" {
      assert "" + p[0..] == p && Pending(EMPTY) == "" && Carried(EMPTY) == "";
    } else {
      JoinInk(s.current, s.dup, p, s.skipped);
      Associative(Ink(Whole(s.pieces)), Ink(Pending(s)), Ink(p));
    }
  }

  lemma Associative(a: string, b: string, c: string)
    ensures a + (b + c) == (a + b) + c
  {
  }

  lemma AddCarries(s: Pack, p: string, max: int, overlap: nat)
    requires Packed(s, max, overlap) && AddEnds(s, p, max, overlap) && IsParagraph(p)
    ensures Carried(AddParagraph(s, p, max, overlap)) == Carried(s) + Ink(p)
  {
    if Joins(s, p, max) {
      JoinCarries(s, p, max, overlap);
    } else {
      FlushedShape(s, max, overlap);
      FlushCarries(s, max, overlap);
      RestartShape(Flush(s), p, max, overlap);
      RestartCarries(Flush(s), p, overlap);
      HardSplitCarries(Restart(Flush(s), p, overlap), max, overlap);
    }
  }

  lemma {:induction false} PackCarries(ps: seq<string>, max: int, overlap: nat)
    requires PackEnds(ps, max, overlap)
    requires forall i :: 0 <= i < |ps| ==> IsParagraph(ps[i])
    ensures Carried(PackAll(ps, max, overlap)) == Ink(Concat(ps))
  {
    if ps != [] {
      var n := |ps| - 1;
      PrefixEnds(ps, max, overlap);
      PackShape(ps[..n], max, overlap);
      PackCarries(ps[..n], max, overlap);
      AddCarries(PackAll(ps[..n], max, overlap), ps[n], max, overlap);
      ConcatLast(ps);
    }
  }

  lemma ConcatLast(ps: seq<string>)
    requires ps != []
    ensures Ink(Concat(ps)) == Ink(Concat(ps[..|ps| - 1])) + Ink(ps[|ps| - 1])
  {
    var init, p := ps[..|ps| - 1], ps[|ps| - 1];
    assert ps == init + [p];
    ConcatSnoc(init, p);
    InkConcat(Concat(init), p);
  }

  // ---------------------------------------------------------------- the pieces

  ghost predicate IsSuffix(a: string, b: string) {
    |a| <= |b| && b[|b| - |a|..] == a
  }

  /** `text[..dup]` really repeats the ink at the end of the last of `pieces`. */
  ghost predicate Repeats(pieces: seq<Piece>, text: string, dup: nat) {
    dup <= |text| &&
    if pieces == [] then dup == 0 else IsSuffix(Ink(text[..dup]), Ink(pieces[|pieces| - 1].text))
  }

  /** No piece is empty or over budget, every duplicated prefix repeats the piece before and is no longer than
      the overlap, and text is skipped only when the overlap is above the budget. */
  ghost predicate PiecesOk(pieces: seq<Piece>, max: int, overlap: nat) {
    pieces == [] ||
    var init, p := pieces[..|pieces| - 1], pieces[|pieces| - 1];
    && PiecesOk(init, max, overlap)
    && 0 < |p.text| <= max && p.dup <= overlap
    && Repeats(init, p.text, p.dup)
    && (p.skipped != "" ==> max < overlap)
  }

  ghost predicate Sound(s: Pack, max: int, overlap: nat) {
    PiecesOk(s.pieces, max, overlap) && Repeats(s.pieces, s.current, s.dup) && (s.skipped != "" ==> max < overlap)
  }

  lemma EmitSound(pieces: seq<Piece>, p: Piece, max: int, overlap: nat)
    requires PiecesOk(pieces, max, overlap) && 0 < |p.text| <= max && p.dup <= overlap
    requires Repeats(pieces, p.text, p.dup) && (p.skipped != "" ==> max < overlap)
    ensures PiecesOk(pieces + [p], max, overlap)
  {
    assert (pieces + [p])[..|pieces|] == pieces;
  }

  lemma FlushSound(s: Pack, max: int, overlap: nat)
    requires Shaped(s, max, overlap) && |s.current| <= max && Sound(s, max, overlap)
    ensures PiecesOk(Flush(s).pieces, max, overlap)
  {
    if s.current != "" {
      var p := FlushPiece(s);
      EmitSound(s.pieces, p, max, overlap);
    }
  }

  lemma TailRepeats(pieces: seq<Piece>, overlap: nat, t: string, d: nat)
    requires d <= |t| && (pieces == [] ==> d == 0) && Ink(t[..d]) == Ink(Tail(pieces, overlap))
    ensures Repeats(pieces, t, d)
  {
    if pieces != [] && overlap > 0 {
      var prev := pieces[|pieces| - 1].text;
      InkCut(prev, |prev| - |Tail(pieces, overlap)|);
    }
  }

  lemma RestartSound(s: Pack, p: string, max: int, overlap: nat)
    requires PiecesOk(s.pieces, max, overlap) && IsParagraph(p)
    ensures Sound(Restart(s, p, overlap), max, overlap)
  {
    var t, d := GlueText(Tail(s.pieces, overlap), p);
    TailRepeats(s.pieces, overlap, t, d);
  }

  /** What is duplicated after a cut repeats the end of the piece cut off. */
  lemma CutRepeats(c: string, t: string, dup: nat, max: nat)
    requires max < |c| && dup <= |t| && dup <= max && t[..dup] == c[..max][max - dup..]
    ensures IsSuffix(Ink(t[..dup]), Ink(c[..max]))
  {
    InkCut(c[..max], max - dup);
  }

  lemma CutKeepsPrefix(c: string, d: nat, max: nat)
    requires d <= max <= |c|
    ensures c[..max][..d] == c[..d]
  {
  }

  lemma CutSound(s: Pack, max: int, overlap: nat)
    requires Shaped(s, max, overlap) && Sound(s, max, overlap) && Splits(max, overlap) && |s.current| > max
    ensures Sound(Cut(s, max, overlap), max, overlap)
  {
    var c, t := s.current, Cut(s, max, overlap);
    CutText(c, t, ResumeAt(c, max, overlap), max);
    CutRepeats(c, t.current, t.dup, max);
    CutKeepsPrefix(c, s.dup, max);
    EmitSound(s.pieces, Piece(c[..max], s.dup, s.skipped), max, overlap);
  }

  lemma {:induction false} HardSplitSound(s: Pack, max: int, overlap: nat)
    requires Shaped(s, max, overlap) && Sound(s, max, overlap) && s.current != ""
    ensures Sound(HardSplit(s, max, overlap), max, overlap)
    decreases |s.current|
  {
    if |s.current| > max && Splits(max, overlap) {
      CutShape(s, max, overlap);
      CutSound(s, max, overlap);
      HardSplitSound(Cut(s, max, overlap), max, overlap);
    }
  }

  lemma JoinSound(s: Pack, p: string, max: int, overlap: nat)
    requires Packed(s, max, overlap) && Sound(s, max, overlap)
    ensures Sound(s.(current := if s.current != "" then s.current + "\n" + p else p), max, overlap)
  {
    if s.current != "" {
      assert (s.current + "\n" + p)[..s.dup] == s.current[..s.dup];
    }
  }

  lemma AddSound(s: Pack, p: string, max: int, overlap: nat)
    requires Packed(s, max, overlap) && Sound(s, max, overlap) && AddEnds(s, p, max, overlap) && IsParagraph(p)
    ensures Sound(AddParagraph(s, p, max, overlap), max, overlap)
  {
    if Joins(s, p, max) {
      JoinSound(s, p, max, overlap);
    } else {
      FlushedShape(s, max, overlap);
      FlushedSound(s, max, overlap);
      RestartShape(Flush(s), p, max, overlap);
      RestartSound(Flush(s), p, max, overlap);
      HardSplitSound(Restart(Flush(s), p, overlap), max, overlap);
    }
  }

  lemma FlushedSound(s: Pack, max: int, overlap: nat)
    requires Packed(s, max, overlap) && Sound(s, max, overlap)
    ensures PiecesOk(Flush(s).pieces, max, overlap)
  {
    if s.current == "" {
      assert Flush(EMPTY) == EMPTY;
    } else {
      FlushSound(s, max, overlap);
    }
  }

  lemma {:induction false} PackSound(ps: seq<string>, max: int, overlap: nat)
    requires PackEnds(ps, max, overlap)
    requires forall i :: 0 <= i < |ps| ==> IsParagraph(ps[i])
    ensures Sound(PackAll(ps, max, overlap), max, overlap)
  {
    if ps != [] {
      var n := |ps| - 1;
      PrefixEnds(ps, max, overlap);
      PackShape(ps[..n], max, overlap);
      PackSound(ps[..n], max, overlap);
      AddSound(PackAll(ps[..n], max, overlap), ps[n], max, overlap);
    }
  }

  // ---------------------------------------------------------------- what splitting promises

  /** No ink was skipped. */
  ghost predicate NothingSkipped(pieces: seq<Piece>) {
    forall i :: 0 <= i < |pieces| ==> Ink(pieces[i].skipped) == ""
  }

  lemma SkippedSnoc(pieces: seq<Piece>, p: Piece)
    ensures NothingSkipped(pieces + [p]) <==> NothingSkipped(pieces) && Ink(p.skipped) == ""
  {
    var more := pieces + [p];
    assert more[|pieces|] == p && forall i :: 0 <= i < |pieces| ==> more[i] == pieces[i];
  }

  lemma FreshSnoc(pieces: seq<Piece>, p: Piece)
    ensures Ink(Fresh(pieces + [p])) == Ink(Fresh(pieces)) + Ink(NewPart(p))
  {
    assert (pieces + [p])[..|pieces|] == pieces;
    InkConcat(Fresh(pieces), NewPart(p));
  }

  lemma {:induction false} SkipsLose(pieces: seq<Piece>)
    ensures NothingSkipped(pieces) ==> Ink(Fresh(pieces)) == Ink(Whole(pieces))
    ensures |Ink(Fresh(pieces))| <= |Ink(Whole(pieces))|
    ensures !NothingSkipped(pieces) ==> |Ink(Fresh(pieces))| < |Ink(Whole(pieces))|
  {
    if pieces != [] {
      var init, p := pieces[..|pieces| - 1], pieces[|pieces| - 1];
      SkipsLose(init);
      assert pieces == init + [p];
      FreshSnoc(init, p);
      WholeSnoc(init, p);
      SkippedSnoc(init, p);
      assert Ink(p.skipped) == "" ==> Ink(p.skipped) + Ink(NewPart(p)) == Ink(NewPart(p));
    }
  }

  lemma {:induction false} PieceLengths(pieces: seq<Piece>, max: int, overlap: nat)
    requires PiecesOk(pieces, max, overlap)
    ensures forall i :: 0 <= i < |pieces| ==> 0 < |pieces[i].text| <= max
  {
    if pieces != [] {
      PieceLengths(pieces[..|pieces| - 1], max, overlap);
    }
  }

  /** Splitting conserves text, on every input on which it ends: without their duplicated prefixes and with
      what was skipped the pieces carry exactly the ink of the section, in order, each character once; a
      duplicated prefix really is the end of the piece before; no piece is empty or over budget; and there
      is a piece iff there is ink. */
  lemma SplitConserves(text: string, max: int, overlap: nat)
    requires BodyEnds(text, max, overlap)
    ensures
      var pieces := SplitBody(text, max, overlap);
      && Ink(Whole(pieces)) == Ink(text)
      && PiecesOk(pieces, max, overlap)
      && (pieces == [] <==> Strip(text) == "")
  {
    var ps := Paragraphs(text);
    var s := PackAll(ps, max, overlap);
    PackShape(ps, max, overlap);
    PackCarries(ps, max, overlap);
    PackSound(ps, max, overlap);
    FlushedShape(s, max, overlap);
    FlushCarries(s, max, overlap);
    FlushedSound(s, max, overlap);
    ParagraphsInk(text);
    PieceIffInk(text, ps, s, max, overlap);
    assert Pending(Flush(s)) == "" && Ink(Whole(Flush(s).pieces)) + "" == Ink(Whole(Flush(s).pieces));
  }

  lemma PieceIffInk(text: string, ps: seq<string>, s: Pack, max: int, overlap: nat)
    requires ps == Paragraphs(text) && Packed(s, max, overlap) && (s.current == "" <==> ps == [])
    ensures Flush(s).pieces == [] <==> Strip(text) == ""
  {
    ParagraphsInk(text);
    StripInk(text);
    InkBlank(text);
    if s.current == "" {
      assert Flush(EMPTY) == EMPTY;
    } else {
      FlushShape(s, max, overlap);
    }
  }

  // ---------------------------------------------------------------- when splitting loses text

  /** The hard split of `c` drops ink: the overlap is above the budget and at most twice the budget, and there is
      ink between the cut and the place where the text goes on. */
  predicate DropsInk(c: string, max: int, overlap: nat) {
    0 < max < overlap < |c| && overlap <= 2 * max && Ink(c[max..|c| - (overlap - max)]) != ""
  }

  /** The loop body loses ink for this paragraph: it does not join, and the hard split drops ink. */
  predicate LosesAt(s: Pack, paragraph: string, max: int, overlap: nat) {
    !Joins(s, paragraph, max) && DropsInk(Restart(Flush(s), paragraph, overlap).current, max, overlap)
  }

  /** Iteration `i` of the loop over the paragraphs loses ink. */
  predicate LosesIn(paragraphs: seq<string>, i: nat, max: int, overlap: nat)
    requires i < |paragraphs|
  {
    LosesAt(PackAll(paragraphs[..i], max, overlap), paragraphs[i], max, overlap)
  }

  /** Some iteration loses ink. */
  predicate PackLoses(paragraphs: seq<string>, max: int, overlap: nat) {
    exists i :: 0 <= i < |paragraphs| && LosesIn(paragraphs, i, max, overlap)
  }

  /** `_split_body` loses ink of this section body. */
  predicate BodyLoses(text: string, max: int, overlap: nat) { PackLoses(Paragraphs(text), max, overlap) }

  /** No ink was skipped so far. */
  ghost predicate SkipFree(s: Pack) { NothingSkipped(s.pieces) && Ink(s.skipped) == "" }

  lemma FlushSkips(s: Pack, max: int, overlap: nat)
    requires Shaped(s, max, overlap)
    ensures NothingSkipped(Flush(s).pieces) <==> SkipFree(s)
  {
    if s.current != "" {
      var p := FlushPiece(s);
      SkippedSnoc(s.pieces, p);
    } else {
      assert Strip("") == "" && Ink("") == "";
    }
  }

  lemma CutSkips(s: Pack, max: int, overlap: nat)
    requires Splits(max, overlap) && |s.current| > max && Ink(s.skipped) == ""
    ensures SkipFree(Cut(s, max, overlap)) <==> NothingSkipped(s.pieces) && !DropsInk(s.current, max, overlap)
  {
    SkippedSnoc(s.pieces, Piece(s.current[..max], s.dup, s.skipped));
    SkippedByCut(s, max, overlap);
  }

  lemma SkippedByCut(s: Pack, max: int, overlap: nat)
    requires Splits(max, overlap) && |s.current| > max
    ensures Ink(Cut(s, max, overlap).skipped) == "" <==> !DropsInk(s.current, max, overlap)
    ensures DropsInk(s.current, max, overlap) ==> |Cut(s, max, overlap).current| <= max
    ensures overlap > max ==> !DropsInk(Cut(s, max, overlap).current, max, overlap)
  {
    assert Ink("") == "";
  }

  lemma {:induction false} HardSplitSkips(s: Pack, max: int, overlap: nat)
    requires Ink(s.skipped) == ""
    ensures SkipFree(HardSplit(s, max, overlap)) <==> NothingSkipped(s.pieces) && !DropsInk(s.current, max, overlap)
    decreases |s.current|
  {
    if |s.current| > max && Splits(max, overlap) {
      var t := Cut(s, max, overlap);
      CutSkips(s, max, overlap);
      if overlap < max {
        HardSplitSkips(t, max, overlap);
      } else {
        OneCut(s, max, overlap);
      }
    }
  }

  /** With an overlap above the budget one cut is enough. */
  lemma OneCut(s: Pack, max: int, overlap: nat)
    requires Splits(max, overlap) && max < overlap && |s.current| > max
    ensures |Cut(s, max, overlap).current| <= max && HardSplit(s, max, overlap) == Cut(s, max, overlap)
  {
  }

  lemma AddSkips(s: Pack, p: string, max: int, overlap: nat)
    requires Packed(s, max, overlap)
    ensures SkipFree(AddParagraph(s, p, max, overlap)) <==> SkipFree(s) && !LosesAt(s, p, max, overlap)
  {
    if !Joins(s, p, max) {
      assert Ink("") == "";
      FlushSkips(s, max, overlap);
      HardSplitSkips(Restart(Flush(s), p, overlap), max, overlap);
    }
  }

  lemma {:induction false} PackSkips(ps: seq<string>, max: int, overlap: nat)
    requires PackEnds(ps, max, overlap)
    requires forall i :: 0 <= i < |ps| ==> IsParagraph(ps[i])
    ensures SkipFree(PackAll(ps, max, overlap)) <==> !PackLoses(ps, max, overlap)
  {
    if ps == [] {
      assert Ink("") == "";
    } else {
      var n := |ps| - 1;
      PrefixEnds(ps, max, overlap);
      PackShape(ps[..n], max, overlap);
      PackSkips(ps[..n], max, overlap);
      AddSkips(PackAll(ps[..n], max, overlap), ps[n], max, overlap);
      PackLosesMore(ps, max, overlap);
    }
  }

  lemma PrefixLoses(ps: seq<string>, i: nat, n: nat, max: int, overlap: nat)
    requires i < n <= |ps|
    ensures LosesIn(ps[..n], i, max, overlap) <==> LosesIn(ps, i, max, overlap)
  {
    assert ps[..n][..i] == ps[..i];
  }

  lemma PackLosesMore(ps: seq<string>, max: int, overlap: nat)
    requires ps != []
    ensures
      var n := |ps| - 1;
      PackLoses(ps, max, overlap) <==> PackLoses(ps[..n], max, overlap) || LosesIn(ps, n, max, overlap)
  {
    var n := |ps| - 1;
    forall i | 0 <= i < n ensures LosesIn(ps[..n], i, max, overlap) <==> LosesIn(ps, i, max, overlap) {
      PrefixLoses(ps, i, n, max, overlap);
    }
  }

  lemma SkippedIffLoses(text: string, max: int, overlap: nat)
    requires BodyEnds(text, max, overlap)
    ensures NothingSkipped(SplitBody(text, max, overlap)) <==> !BodyLoses(text, max, overlap)
  {
    var ps := Paragraphs(text);
    PackShape(ps, max, overlap);
    PackSkips(ps, max, overlap);
    FlushSkips(PackAll(ps, max, overlap), max, overlap);
  }

  /** Splitting loses ink of a section exactly when one of its paragraphs does not join and is cut, with an overlap
      above the budget, where the dropped stretch has ink. With an overlap up to the budget nothing is lost. */
  lemma SplitLosesNothing(text: string, max: int, overlap: nat)
    requires BodyEnds(text, max, overlap)
    ensures Ink(Fresh(SplitBody(text, max, overlap))) == Ink(text) <==> !BodyLoses(text, max, overlap)
    ensures overlap <= max ==> !BodyLoses(text, max, overlap)
  {
    SplitConserves(text, max, overlap);
    SkipsLose(SplitBody(text, max, overlap));
    SkippedIffLoses(text, max, overlap);
  }

  // ---------------------------------------------------------------- how the hard split cuts

  /** `n` is a / b, rounded up. */
  predicate IsCeiling(n: nat, a: int, b: nat) {
    n * b >= a && (n > 0 ==> (n - 1) * b < a)
  }

  lemma CeilingStep(n: nat, a: int, b: nat)
    requires IsCeiling(n, a - b, b) && a > 0 && b > 0
    ensures IsCeiling(n + 1, a, b)
  {
    assert (n + 1) * b == n * b + b && (n > 0 ==> n * b == (n - 1) * b + b);
  }

  lemma {:induction false} CutsCounted(s: Pack, max: nat, overlap: nat)
    requires overlap < max
    ensures
      var r := HardSplit(s, max, overlap);
      |r.pieces| >= |s.pieces| && IsCeiling(|r.pieces| - |s.pieces|, |s.current| - max, max - overlap)
    decreases |s.current|
  {
    if |s.current| > max {
      var t := Cut(s, max, overlap);
      CutsCounted(t, max, overlap);
      CeilingStep(|HardSplit(t, max, overlap).pieces| - |t.pieces|, |s.current| - max, max - overlap);
    } else {
      assert 0 * (max - overlap) == 0;
    }
  }

  /** `a` ends with the `overlap` characters that `b` begins with. */
  predicate Overlaps(a: string, b: string, overlap: nat) {
    overlap <= |a| && overlap <= |b| && a[|a| - overlap..] == b[..overlap]
  }

  /** `r` is what remains of `s` after its cuts: cuts of the same length that overlap. */
  ghost predicate IsCutUp(s: Pack, r: Pack, max: nat, overlap: nat) {
    var n := |s.pieces|;
    && |r.pieces| >= n && r.pieces[..n] == s.pieces
    && (forall i :: n <= i < |r.pieces| ==> |r.pieces[i].text| == max)
    && (forall i :: n < i < |r.pieces| ==> Overlaps(r.pieces[i - 1].text, r.pieces[i].text, overlap))
    && (if |r.pieces| == n then r == s
        else r.pieces[n].text == Take(s.current, max) && Overlaps(r.pieces[|r.pieces| - 1].text, r.current, overlap))
  }

  lemma {:induction false} CutsOverlap(s: Pack, max: nat, overlap: nat)
    requires overlap < max
    ensures IsCutUp(s, HardSplit(s, max, overlap), max, overlap)
    decreases |s.current|
  {
    if |s.current| > max {
      var t := Cut(s, max, overlap);
      CutsOverlap(t, max, overlap);
      CutOverlaps(s, max, overlap);
      OneMoreCut(s, t, HardSplit(t, max, overlap), max, overlap);
    }
  }

  lemma OneMoreCut(s: Pack, t: Pack, r: Pack, max: nat, overlap: nat)
    requires overlap < max < |s.current| && IsCutUp(t, r, max, overlap)
    requires |t.pieces| == |s.pieces| + 1 && t.pieces[..|s.pieces|] == s.pieces
    requires t.pieces[|s.pieces|].text == s.current[..max] && Overlaps(s.current[..max], t.current, overlap)
    ensures IsCutUp(s, r, max, overlap)
  {
    var n := |s.pieces|;
    assert r.pieces[n] == r.pieces[..n + 1][n];
    assert r.pieces[..n] == r.pieces[..n + 1][..n];
    if |r.pieces| > n + 1 {
      assert Take(t.current, max)[..overlap] == t.current[..overlap];
    }
  }

  lemma CutOverlaps(s: Pack, max: nat, overlap: nat)
    requires overlap < max < |s.current|
    ensures Overlaps(s.current[..max], Cut(s, max, overlap).current, overlap)
  {
    Slices(s.current, max - overlap, max);
  }

  /** A text longer than the budget takes exactly ceil((length - max) / (max - overlap)) cuts,
      every cut piece is exactly `max` long, neighbouring cut pieces share exactly `overlap`
      characters, and so do the last cut and what remains. */
  lemma HardSplitCuts(s: Pack, max: nat, overlap: nat)
    requires overlap < max
    ensures
      var r := HardSplit(s, max, overlap);
      IsCutUp(s, r, max, overlap) && IsCeiling(|r.pieces| - |s.pieces|, |s.current| - max, max - overlap)
  {
    CutsCounted(s, max, overlap);
    CutsOverlap(s, max, overlap);
  }

  // ---------------------------------------------------------------- when the hard split ends

  /** What remains of `current` after `n` cuts, for any budget, also a negative one. */
  function AfterCuts(current: string, max: int, overlap: nat, n: nat): string {
    if n == 0 then current else SliceFrom(AfterCuts(current, max, overlap, n - 1), max - overlap)
  }

  /** The hard split of an over-long text ends if and only if the overlap is not the budget
      and at most twice the budget. For documents that reach such budgets see `LongTitlesBreakChunking`. */
  lemma HardSplitTerminates(current: string, max: int, overlap: nat)
    requires |current| > max
    ensures (exists n :: |AfterCuts(current, max, overlap, n)| <= max) <==> Splits(max, overlap)
  {
    if overlap < max {
      var n := CutsSuffice(current, max, overlap);
    } else if Splits(max, overlap) {
      assert AfterCuts(current, max, overlap, 0) == current;
      assert |AfterCuts(current, max, overlap, 1)| <= max;
    } else {
      forall n: nat ensures |AfterCuts(current, max, overlap, n)| > max {
        CutsStuck(current, max, overlap, n);
      }
    }
  }

  lemma {:induction false} CutsSuffice(current: string, max: nat, overlap: nat) returns (n: nat)
    requires overlap < max
    ensures |AfterCuts(current, max, overlap, n)| <= max
    decreases |current|
  {
    if |current| <= max {
      n := 0;
    } else {
      var m := CutsSuffice(SliceFrom(current, max - overlap), max, overlap);
      CutsShift(current, max, overlap, m);
      n := m + 1;
    }
  }

  lemma {:induction false} CutsShift(current: string, max: int, overlap: nat, n: nat)
    ensures AfterCuts(SliceFrom(current, max - overlap), max, overlap, n) == AfterCuts(current, max, overlap, n + 1)
  {
    if n > 0 {
      CutsShift(current, max, overlap, n - 1);
    }
  }

  lemma {:induction false} CutsStuck(current: string, max: int, overlap: nat, n: nat)
    requires |current| > max && !Splits(max, overlap)
    ensures |AfterCuts(current, max, overlap, n)| > max
  {
    if n > 0 {
      CutsStuck(current, max, overlap, n - 1);
      SliceStuck(AfterCuts(current, max, overlap, n - 1), max, max - overlap);
    }
  }

  /** A slice of everything, or of more than the budget from the end, stays over budget. */
  lemma SliceStuck(current: string, max: int, step: int)
    requires |current| > max && (step == 0 || step < -max)
    ensures |SliceFrom(current, step)| > max
  {
  }

  /** Where the overlap exceeds the budget and the split still ends, it makes one cut, and it loses text
      exactly when the text is longer than the overlap; otherwise the cut and what follows the duplicated
      prefix of the remainder carry all of its ink. */
  lemma HardSplitLosesText(s: Pack, max: int, overlap: nat)
    requires max < overlap <= 2 * max < 2 * |s.current| && s.dup <= max
    ensures
      var c, r := s.current, HardSplit(s, max, overlap);
      && r.pieces == s.pieces + [Piece(c[..max], s.dup, s.skipped)]
      && r.current == AfterCuts(c, max, overlap, 1) && |r.current| <= max && r.dup <= |r.current|
      && (max + |r.current| < |c| <==> |c| > overlap)
      && (r.skipped != "" <==> |c| > overlap)
      && (|c| <= overlap ==> Ink(c) == Ink(c[..max]) + Ink(r.current[r.dup..]))
  {
    assert AfterCuts(s.current, max, overlap, 0) == s.current;
    var t := Cut(s, max, overlap);
    CutText(s.current, t, ResumeAt(s.current, max, overlap), max);
    InkCut(s.current, max);
    assert HardSplit(s, max, overlap) == t;
    assert |s.current| <= overlap ==> Pending(t) == t.current[t.dup..];
  }

  /** Settings for which every hard split ends let every section body end. */
  lemma SplitsEnd(text: string, max: int, overlap: nat)
    requires Splits(max, overlap)
    ensures BodyEnds(text, max, overlap)
  {
  }

  /** Without any budget the chunker ends for blank bodies only. */
  lemma NoBudgetEnds(text: string, max: int, overlap: nat)
    requires max <= 0
    ensures BodyEnds(text, max, overlap) <==> Blank(text)
  {
    var ps := Paragraphs(text);
    ParagraphsInk(text);
    if ps != [] {
      assert ps[..0] == [] && Flush(EMPTY) == EMPTY;
      assert !AddEnds(PackAll(ps[..0], max, overlap), ps[0], max, overlap);
    }
  }
}
