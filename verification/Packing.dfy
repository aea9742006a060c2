/** What the pieces of a section are, described without the packing loop: which paragraphs each piece takes up,
    where it is cut, and why it could not take up the next paragraph. */
module Packing {
  import opened Chunker
  import opened Text

  /** One piece: it takes up the paragraphs from `first` to before `end`, as the text `whole`, which begins with
      what the piece before has left over. If it is `cut`, only the beginning of `whole` becomes the piece. */
  datatype Mark = Mark(first: nat, end: nat, cut: bool, whole: string)

  /** What the next piece begins with: the overlap tail of the piece before and paragraph `first`, or, after a cut,
      the rest of this paragraph's text. */
  datatype Left = Tail(first: nat, text: string) | Rest(first: nat, text: string)

  /** What the pieces before piece `j` have left over. */
  function LeftAt(marks: seq<Mark>, texts: seq<string>, j: nat, max: int, overlap: nat): Left
    requires j <= |marks| == |texts|
  {
    if j == 0 then Tail(0, "")
    else
      var m := marks[j - 1];
      if m.cut then Rest(m.first, SliceFrom(m.whole, max - overlap)) else Tail(m.end, Last(texts[j - 1], overlap))
  }

  function Begin(left: Left, paragraph: string): string {
    if left.Rest? then left.text else Strip(left.text + " " + paragraph)
  }

  /** The paragraphs from `a` to before `b`, each on a line of its own. */
  function More(ps: seq<string>, a: nat, b: nat): string
    requires a <= b <= |ps|
  {
    if a == b then "" else More(ps, a, b - 1) + "\n" + ps[b - 1]
  }

  /** The text holds the paragraphs from the first one left to before `i`. */
  ghost predicate IsText(current: string, left: Left, i: nat, ps: seq<string>) {
    left.first < i <= |ps| && current == Begin(left, ps[left.first]) + More(ps, left.first + 1, i)
  }

  /** A piece is cut exactly when its text is over budget, and then right at the budget; otherwise it is the
      stripped text, and the next paragraph would not have fit on one more line. */
  ghost predicate Closed(m: Mark, text: string, ps: seq<string>, max: int) {
    if m.cut then m.end == m.first + 1 && 0 < max < |m.whole| && text == m.whole[..max]
    else |m.whole| <= max && text == Strip(m.whole) && (m.end < |ps| ==> |m.whole| + 1 + |ps[m.end]| > max)
  }

  /** The mark describes the piece. */
  ghost predicate Describes(m: Mark, text: string, left: Left, ps: seq<string>, max: int) {
    m.first == left.first && IsText(m.whole, left, m.end, ps) && Closed(m, text, ps, max)
  }

  ghost predicate ExplainsAt(marks: seq<Mark>, texts: seq<string>, j: nat, ps: seq<string>, max: int, overlap: nat)
    requires j < |marks| == |texts|
  {
    Describes(marks[j], texts[j], LeftAt(marks, texts, j, max, overlap), ps, max)
  }

  /** The marks describe all pieces. */
  ghost predicate Explains(marks: seq<Mark>, texts: seq<string>, ps: seq<string>, max: int, overlap: nat) {
    && |marks| == |texts|
    && (forall j :: 0 <= j < |marks| ==> ExplainsAt(marks, texts, j, ps, max, overlap))
  }

  // ---------------------------------------------------------------- the loop produces such pieces

  lemma SameLeft(marks: seq<Mark>, texts: seq<string>, m: Mark, text: string, j: nat, max: int, overlap: nat)
    requires j <= |marks| == |texts|
    ensures LeftAt(marks + [m], texts + [text], j, max, overlap) == LeftAt(marks, texts, j, max, overlap)
  {
  }

  lemma OneMoreMark(marks: seq<Mark>, texts: seq<string>, m: Mark, text: string, ps: seq<string>, max: int,
                    overlap: nat)
    requires Explains(marks, texts, ps, max, overlap)
    requires Describes(m, text, LeftAt(marks, texts, |marks|, max, overlap), ps, max)
    ensures Explains(marks + [m], texts + [text], ps, max, overlap)
  {
    var more, moreTexts := marks + [m], texts + [text];
    forall j | 0 <= j < |more| ensures ExplainsAt(more, moreTexts, j, ps, max, overlap) {
      SameLeft(marks, texts, m, text, j, max, overlap);
      if j < |marks| {
        assert ExplainsAt(marks, texts, j, ps, max, overlap);
        assert more[j] == marks[j] && moreTexts[j] == texts[j];
      } else {
        assert more[j] == m && moreTexts[j] == text;
      }
    }
  }

  /** The loop has finished the pieces of the marks and collected what is left of the first `i` paragraphs. */
  ghost predicate Reached(s: Pack, marks: seq<Mark>, i: nat, ps: seq<string>, max: int, overlap: nat) {
    && Explains(marks, Texts(s.pieces), ps, max, overlap)
    && IsText(s.current, LeftAt(marks, Texts(s.pieces), |marks|, max, overlap), i, ps)
  }

  /** The first paragraph of the piece that is open. */
  function Opened(s: Pack, marks: seq<Mark>, max: int, overlap: nat): nat
    requires |marks| == |s.pieces|
  {
    LeftAt(marks, Texts(s.pieces), |marks|, max, overlap).first
  }

  /** A cut closes a piece and leaves its paragraph open. */
  lemma CutReached(s: Pack, marks: seq<Mark>, i: nat, ps: seq<string>, max: int, overlap: nat) returns (more: seq<Mark>)
    requires Reached(s, marks, i, ps, max, overlap) && i == Opened(s, marks, max, overlap) + 1
    requires Splits(max, overlap) && |s.current| > max
    ensures Reached(Cut(s, max, overlap), more, i, ps, max, overlap)
    ensures i == Opened(Cut(s, max, overlap), more, max, overlap) + 1
  {
    var m := Mark(i - 1, i, true, s.current);
    more := marks + [m];
    var t := Cut(s, max, overlap);
    OneMoreMark(marks, Texts(s.pieces), m, s.current[..max], ps, max, overlap);
    TextsSnoc(s.pieces, Piece(s.current[..max], s.dup, s.skipped));
    assert t.current == SliceFrom(s.current, max - overlap);
    assert t.current + "" == t.current;
  }

  lemma {:induction false} HardSplitReached(s: Pack, marks: seq<Mark>, i: nat, ps: seq<string>, max: int, overlap: nat)
      returns (more: seq<Mark>)
    requires Reached(s, marks, i, ps, max, overlap) && i == Opened(s, marks, max, overlap) + 1
    ensures Reached(HardSplit(s, max, overlap), more, i, ps, max, overlap)
    decreases |s.current|
  {
    if |s.current| > max && Splits(max, overlap) {
      more := CutReached(s, marks, i, ps, max, overlap);
      more := HardSplitReached(Cut(s, max, overlap), more, i, ps, max, overlap);
    } else {
      more := marks;
    }
  }

  /** A paragraph opens a piece behind finished pieces. */
  lemma RestartText(s: Pack, left: Left, i: nat, ps: seq<string>, overlap: nat)
    requires i < |ps| && IsParagraph(ps[i])
    requires left == Tail(i, if s.pieces == [] then "" else Last(s.pieces[|s.pieces| - 1].text, overlap))
    ensures IsText(Restart(s, ps[i], overlap).current, left, i + 1, ps)
  {
    var current := Restart(s, ps[i], overlap).current;
    StripParagraph(ps[i]);
    assert "" + " " + ps[i] == " " + ps[i];
    assert left.text == Chunker.Tail(s.pieces, overlap);
    assert current + "" == current;
  }

  lemma FlushedText(s: Pack, max: int, overlap: nat)
    requires Shaped(s, max, overlap) && s.current != ""
    ensures Texts(Flush(s).pieces) == Texts(s.pieces) + [Strip(s.current)]
  {
    var p := FlushPiece(s);
    TextsSnoc(s.pieces, p);
  }

  /** Closing the open piece of the loop by a flush. */
  lemma FlushReached(s: Pack, marks: seq<Mark>, i: nat, ps: seq<string>, max: int, overlap: nat)
      returns (closed: seq<Mark>)
    requires Reached(s, marks, i, ps, max, overlap)
    requires Shaped(s, max, overlap) && s.current != "" && |s.current| <= max
    requires i < |ps| ==> |s.current| + 1 + |ps[i]| > max
    ensures Explains(closed, Texts(Flush(s).pieces), ps, max, overlap)
    ensures closed != [] && !closed[|closed| - 1].cut && closed[|closed| - 1].end == i
  {
    var m := Mark(Opened(s, marks, max, overlap), i, false, s.current);
    OneMoreMark(marks, Texts(s.pieces), m, Strip(s.current), ps, max, overlap);
    FlushedText(s, max, overlap);
    closed := marks + [m];
  }

  lemma RestartReached(s: Pack, closed: seq<Mark>, i: nat, ps: seq<string>, max: int, overlap: nat)
    requires Explains(closed, Texts(s.pieces), ps, max, overlap) && i < |ps| && IsParagraph(ps[i])
    requires if closed == [] then i == 0 else !closed[|closed| - 1].cut && closed[|closed| - 1].end == i
    ensures Reached(Restart(s, ps[i], overlap), closed, i + 1, ps, max, overlap)
    ensures Opened(Restart(s, ps[i], overlap), closed, max, overlap) == i
  {
    RestartText(s, LeftAt(closed, Texts(s.pieces), |closed|, max, overlap), i, ps, overlap);
  }

  /** A paragraph opens a new piece, which may have to be cut. */
  lemma NewReached(s: Pack, closed: seq<Mark>, i: nat, ps: seq<string>, max: int, overlap: nat)
      returns (more: seq<Mark>)
    requires Explains(closed, Texts(s.pieces), ps, max, overlap) && i < |ps| && IsParagraph(ps[i])
    requires if closed == [] then i == 0 else !closed[|closed| - 1].cut && closed[|closed| - 1].end == i
    ensures Reached(HardSplit(Restart(s, ps[i], overlap), max, overlap), more, i + 1, ps, max, overlap)
  {
    RestartReached(s, closed, i, ps, max, overlap);
    more := HardSplitReached(Restart(s, ps[i], overlap), closed, i + 1, ps, max, overlap);
  }

  /** The first paragraph opens the first piece. */
  lemma FirstReached(ps: seq<string>, max: int, overlap: nat) returns (marks: seq<Mark>)
    requires ps != [] && IsParagraph(ps[0])
    ensures Reached(AddParagraph(EMPTY, ps[0], max, overlap), marks, 1, ps, max, overlap)
  {
    assert Flush(EMPTY) == EMPTY && Texts(EMPTY.pieces) == [];
    if Joins(EMPTY, ps[0], max) {
      marks := [];
      RestartText(EMPTY, Tail(0, ""), 0, ps, overlap);
    } else {
      marks := NewReached(EMPTY, [], 0, ps, max, overlap);
    }
  }

  lemma LongerText(current: string, left: Left, i: nat, ps: seq<string>)
    requires IsText(current, left, i, ps) && i < |ps|
    ensures IsText(current + "\n" + ps[i], left, i + 1, ps)
  {
    OneMoreLine(Begin(left, ps[left.first]), More(ps, left.first + 1, i), ps[i]);
  }

  lemma OneMoreLine(a: string, b: string, p: string)
    ensures a + b + "\n" + p == a + (b + "\n" + p)
  {
  }

  /** A later paragraph joins the open piece or opens the next one. */
  lemma NextReached(s: Pack, marks: seq<Mark>, i: nat, ps: seq<string>, max: int, overlap: nat)
      returns (more: seq<Mark>)
    requires Reached(s, marks, i, ps, max, overlap) && i < |ps| && IsParagraph(ps[i])
    requires Shaped(s, max, overlap) && s.current != "" && |s.current| <= max
    ensures Reached(AddParagraph(s, ps[i], max, overlap), more, i + 1, ps, max, overlap)
  {
    if Joins(s, ps[i], max) {
      more := marks;
      LongerText(s.current, LeftAt(marks, Texts(s.pieces), |marks|, max, overlap), i, ps);
    } else {
      var closed := FlushReached(s, marks, i, ps, max, overlap);
      more := NewReached(Flush(s), closed, i, ps, max, overlap);
    }
  }

  lemma {:induction false} LoopReached(ps: seq<string>, i: nat, max: int, overlap: nat) returns (marks: seq<Mark>)
    requires PackEnds(ps, max, overlap) && 0 < i <= |ps|
    requires forall j :: 0 <= j < |ps| ==> IsParagraph(ps[j])
    ensures Reached(PackAll(ps[..i], max, overlap), marks, i, ps, max, overlap)
  {
    PackAllStep(ps, i - 1, max, overlap);
    if i == 1 {
      marks := FirstReached(ps, max, overlap);
    } else {
      var before := LoopReached(ps, i - 1, max, overlap);
      PrefixShape(ps, i - 1, max, overlap);
      marks := NextReached(PackAll(ps[..i - 1], max, overlap), before, i - 1, ps, max, overlap);
    }
  }

  lemma PrefixShape(ps: seq<string>, i: nat, max: int, overlap: nat)
    requires PackEnds(ps, max, overlap) && 0 < i <= |ps|
    requires forall j :: 0 <= j < |ps| ==> IsParagraph(ps[j])
    ensures
      var s := PackAll(ps[..i], max, overlap);
      Shaped(s, max, overlap) && s.current != "" && |s.current| <= max
  {
    forall j | 0 <= j < i ensures AddEnds(PackAll(ps[..i][..j], max, overlap), ps[..i][j], max, overlap) {
      assert ps[..i][..j] == ps[..j];
    }
    PackShape(ps[..i], max, overlap);
  }

  lemma AllReached(ps: seq<string>, max: int, overlap: nat) returns (marks: seq<Mark>)
    requires PackEnds(ps, max, overlap) && ps != []
    requires forall j :: 0 <= j < |ps| ==> IsParagraph(ps[j])
    ensures Explains(marks, Texts(Flush(PackAll(ps, max, overlap)).pieces), ps, max, overlap)
    ensures marks != [] && !marks[|marks| - 1].cut && marks[|marks| - 1].end == |ps|
  {
    var open := LoopReached(ps, |ps|, max, overlap);
    PrefixShape(ps, |ps|, max, overlap);
    assert ps[..|ps|] == ps;
    marks := FlushReached(PackAll(ps, max, overlap), open, |ps|, ps, max, overlap);
  }

  /** The pieces of a section, for every section body on which splitting ends: they take up all its paragraphs in
      order, a piece begins with the overlap tail of the one before, paragraphs are joined by line feeds while they
      fit, and a text is cut exactly where it is over budget. */
  lemma PiecesExplained(text: string, max: int, overlap: nat) returns (marks: seq<Mark>)
    requires BodyEnds(text, max, overlap)
    ensures Explains(marks, Texts(SplitBody(text, max, overlap)), Paragraphs(text), max, overlap)
    ensures marks == [] <==> Paragraphs(text) == []
    ensures marks != [] ==> !marks[|marks| - 1].cut && marks[|marks| - 1].end == |Paragraphs(text)|
  {
    var ps := Paragraphs(text);
    if ps == [] {
      marks := [];
      assert Flush(EMPTY) == EMPTY;
    } else {
      marks := AllReached(ps, max, overlap);
    }
  }

  // ---------------------------------------------------------------- what follows for the piece texts

  lemma {:induction false} MoreTight(p: string, ps: seq<string>, a: nat, b: nat)
    requires a <= b <= |ps| && IsParagraph(p) && forall j :: 0 <= j < |ps| ==> IsParagraph(ps[j])
    ensures IsParagraph(p + More(ps, a, b))
  {
    if a < b {
      MoreTight(p, ps, a, b - 1);
      OneMoreLine(p, More(ps, a, b - 1), ps[b - 1]);
    } else {
      assert p + "" == p;
    }
  }

  lemma TailTight(tail: string, p: string)
    requires IsParagraph(p)
    ensures IsParagraph(Strip(tail + " " + p))
  {
    var c := tail + " " + p;
    assert c[|c| - 1] == p[|p| - 1];
    InkBlank(c);
    StripInk(c);
  }

  /** A piece that is neither cut nor follows a cut is as full as can be: on one more line, the next paragraph
      would exceed the budget. */
  lemma PieceIsFull(marks: seq<Mark>, texts: seq<string>, j: nat, ps: seq<string>, max: int, overlap: nat)
    requires Explains(marks, texts, ps, max, overlap) && j < |marks|
    requires forall i :: 0 <= i < |ps| ==> IsParagraph(ps[i])
    requires !marks[j].cut && marks[j].end < |ps| && (j > 0 ==> !marks[j - 1].cut)
    ensures |texts[j] + "\n" + ps[marks[j].end]| > max
  {
    assert ExplainsAt(marks, texts, j, ps, max, overlap);
    var m, left := marks[j], LeftAt(marks, texts, j, max, overlap);
    TailTight(left.text, ps[m.first]);
    MoreTight(Begin(left, ps[m.first]), ps, m.first + 1, m.end);
    StripParagraph(m.whole);
  }

  lemma {:induction false} JoinIsMore(ps: seq<string>, n: nat)
    requires 0 < n <= |ps|
    ensures Join("\n", ps[..n]) == ps[0] + More(ps, 1, n)
  {
    if n > 1 {
      JoinIsMore(ps, n - 1);
      assert ps[..n] == ps[..n - 1] + [ps[n - 1]];
      JoinSnoc("\n", ps[..n - 1], ps[n - 1]);
      OneMoreLine(ps[0], More(ps, 1, n - 1), ps[n - 1]);
    } else {
      assert ps[..1] == [ps[0]] && ps[0] + "" == ps[0];
    }
  }

  lemma {:induction false} MoreGrows(ps: seq<string>, a: nat, b: nat, c: nat)
    requires a <= b <= c <= |ps|
    ensures |More(ps, a, b)| <= |More(ps, a, c)|
    ensures b < c ==> |More(ps, a, b)| + 1 + |ps[b]| <= |More(ps, a, c)|
  {
    if b < c {
      MoreGrows(ps, a, b, c - 1);
    }
  }

  /** The first piece of paragraphs that fit together takes up all of them. */
  lemma FirstTakesAll(marks: seq<Mark>, texts: seq<string>, ps: seq<string>, max: int, overlap: nat)
    requires Explains(marks, texts, ps, max, overlap) && marks != []
    requires ps != [] && IsParagraph(ps[0]) && |ps[0] + More(ps, 1, |ps|)| <= max
    ensures |texts| == 1 && texts[0] == Strip(ps[0] + More(ps, 1, |ps|))
  {
    assert ExplainsAt(marks, texts, 0, ps, max, overlap);
    StripParagraph(ps[0]);
    assert "" + " " + ps[0] == " " + ps[0];
    MoreGrows(ps, 1, marks[0].end, |ps|);
    assert marks[0].end == |ps| && !marks[0].cut;
    assert |marks| > 1 ==> !ExplainsAt(marks, texts, 1, ps, max, overlap);
  }

  lemma JoinTight(ps: seq<string>)
    requires ps != [] && forall i :: 0 <= i < |ps| ==> IsParagraph(ps[i])
    ensures Join("\n", ps) == ps[0] + More(ps, 1, |ps|) && Strip(Join("\n", ps)) == Join("\n", ps)
  {
    assert ps[..|ps|] == ps;
    JoinIsMore(ps, |ps|);
    MoreTight(ps[0], ps, 1, |ps|);
    StripParagraph(Join("\n", ps));
  }

  /** Paragraphs that fit together are one piece: the paragraphs, joined by line feeds. */
  lemma FittingTextIsOnePiece(text: string, max: int, overlap: nat)
    requires BodyEnds(text, max, overlap)
    requires Paragraphs(text) != [] && |Join("\n", Paragraphs(text))| <= max
    ensures Texts(SplitBody(text, max, overlap)) == [Join("\n", Paragraphs(text))]
  {
    var ps, texts := Paragraphs(text), Texts(SplitBody(text, max, overlap));
    var marks := PiecesExplained(text, max, overlap);
    JoinTight(ps);
    FirstTakesAll(marks, texts, ps, max, overlap);
    assert texts == [texts[0]];
  }
}
