/** Python's text primitives, as far as the ingestion worker uses them:
    whitespace, `strip`, `splitlines`, slices and joins. */
module Text {

  /** `str.isspace` for one character. */
  predicate IsSpace(c: char) {
    || '\U{0009}' <= c <= '\U{000D}'
    || '\U{001C}' <= c <= '\U{0020}'
    || c == '\U{0085}' || c == '\U{00A0}' || c == '\U{1680}'
    || '\U{2000}' <= c <= '\U{200A}'
    || c == '\U{2028}' || c == '\U{2029}' || c == '\U{202F}'
    || c == '\U{205F}' || c == '\U{3000}'
  }

  /** The line boundaries of `str.splitlines`. */
  predicate IsBreak(c: char) {
    || '\U{000A}' <= c <= '\U{000D}'
    || '\U{001C}' <= c <= '\U{001E}'
    || c == '\U{0085}' || c == '\U{2028}' || c == '\U{2029}'
  }

  /** The characters of `s` that are not whitespace, in order. */
  function Ink(s: string): string {
    if s == "" then "" else (if IsSpace(s[0]) then "" else [s[0]]) + Ink(s[1..])
  }

  predicate Blank(s: string) {
    forall i :: 0 <= i < |s| ==> IsSpace(s[i])
  }

  lemma {:induction false} InkConcat(a: string, b: string)
    ensures Ink(a + b) == Ink(a) + Ink(b)
  {
    if a == "" {
      assert a + b == b && Ink(a) == "";
    } else {
      var head := if IsSpace(a[0]) then "" else [a[0]];
      assert (a + b)[0] == a[0] && (a + b)[1..] == a[1..] + b;
      InkConcat(a[1..], b);
      assert head + (Ink(a[1..]) + Ink(b)) == (head + Ink(a[1..])) + Ink(b);
    }
  }

  /** Ink splits wherever the text is cut. */
  lemma InkCut(s: string, i: nat)
    requires i <= |s|
    ensures Ink(s) == Ink(s[..i]) + Ink(s[i..])
  {
    assert s == s[..i] + s[i..];
    InkConcat(s[..i], s[i..]);
  }

  lemma {:induction false} InkBlank(s: string)
    ensures Blank(s) <==> Ink(s) == ""
  {
    if s != "" {
      InkBlank(s[1..]);
      assert Blank(s) <==> IsSpace(s[0]) && Blank(s[1..]) by {
        if IsSpace(s[0]) && Blank(s[1..]) {
          forall i | 0 <= i < |s| ensures IsSpace(s[i]) {
            if i > 0 { assert s[i] == s[1..][i - 1]; }
          }
        }
        if Blank(s) {
          forall i | 0 <= i < |s[1..]| ensures IsSpace(s[1..][i]) { assert s[1..][i] == s[i + 1]; }
        }
      }
    }
  }

  /** How many leading whitespace characters `s` has. */
  function LeadingSpace(s: string): (k: nat)
    ensures k <= |s|
    ensures Blank(s[..k])
    ensures k < |s| ==> !IsSpace(s[k])
  {
    if s == "" || !IsSpace(s[0]) then 0
    else
      var k := 1 + LeadingSpace(s[1..]);
      assert forall i :: 1 <= i < k ==> s[i] == s[1..][..k - 1][i - 1];
      k
  }

  /** The length of `s` without its trailing whitespace. */
  function TrimmedLength(s: string): (k: nat)
    ensures k <= |s|
    ensures Blank(s[k..])
    ensures k > 0 ==> !IsSpace(s[k - 1])
  {
    if s == "" || !IsSpace(s[|s| - 1]) then |s|
    else
      var t := s[..|s| - 1];
      var k := TrimmedLength(t);
      assert s[k..] == t[k..] + [s[|s| - 1]];
      k
  }

  function LStrip(s: string): string { s[LeadingSpace(s)..] }

  /** `str.strip`. */
  function Strip(s: string): (r: string)
    ensures r != "" ==> !IsSpace(r[0]) && !IsSpace(r[|r| - 1])
    ensures |r| <= |s|
  {
    var t := LStrip(s);
    t[..TrimmedLength(t)]
  }

  lemma LStripInk(s: string)
    ensures Ink(LStrip(s)) == Ink(s)
  {
    InkCut(s, LeadingSpace(s));
    InkBlank(s[..LeadingSpace(s)]);
  }

  lemma TrimmedInk(t: string)
    ensures Ink(t[..TrimmedLength(t)]) == Ink(t)
  {
    InkCut(t, TrimmedLength(t));
    InkBlank(t[TrimmedLength(t)..]);
  }

  /** `strip` removes no ink, and leaves nothing exactly when there is none. */
  lemma StripInk(s: string)
    ensures Ink(Strip(s)) == Ink(s)
    ensures Strip(s) == "" <==> Ink(s) == ""
  {
    LStripInk(s);
    TrimmedInk(LStrip(s));
    var r := Strip(s);
    InkBlank(r);
  }

  /** `strip` cuts exactly the whitespace at both ends. */
  lemma StripMeaning(s: string) returns (i: nat, j: nat)
    ensures i <= j <= |s| && Strip(s) == s[i..j] && Blank(s[..i]) && Blank(s[j..])
    ensures i < j ==> !IsSpace(s[i]) && !IsSpace(s[j - 1])
  {
    i := LeadingSpace(s);
    var t := s[i..];
    j := i + TrimmedLength(t);
    assert s[j..] == t[TrimmedLength(t)..] && s[i..j] == t[..TrimmedLength(t)];
  }

  /** The index of the first line boundary, or |s|. */
  function FirstBreak(s: string): (k: nat)
    ensures k <= |s|
    ensures forall i :: 0 <= i < k ==> !IsBreak(s[i])
    ensures k < |s| ==> IsBreak(s[k])
  {
    if s == "" || IsBreak(s[0]) then 0
    else
      var k := 1 + FirstBreak(s[1..]);
      assert forall i :: 1 <= i < k ==> s[i] == s[1..][i - 1];
      k
  }

  /** The number of characters of the boundary at index `k`: CR LF counts as one boundary. */
  function BreakWidth(s: string, k: nat): (w: nat)
    requires k < |s|
    ensures 1 <= w <= 2 && k + w <= |s|
  {
    if s[k] == '\r' && k + 1 < |s| && s[k + 1] == '\n' then 2 else 1
  }

  /** `str.splitlines()`. */
  function SplitLines(s: string): seq<string>
    decreases |s|
  {
    if s == "" then []
    else
      var k := FirstBreak(s);
      if k == |s| then [s]
      else [s[..k]] + SplitLines(s[k + BreakWidth(s, k)..])
  }

  /** Lines, each followed by its line end, joined. */
  function Rebuilt(lines: seq<string>, ends: seq<string>): string
    requires |lines| == |ends|
  {
    if lines == [] then "" else lines[0] + ends[0] + Rebuilt(lines[1..], ends[1..])
  }

  /** A line end is one line boundary, or CR LF; the last line may have none. */
  predicate IsLineEnd(end: string, last: bool) {
    (last && end == "") || (|end| == 1 && IsBreak(end[0])) || end == "\r\n"
  }

  predicate NoBreak(line: string) { forall j :: 0 <= j < |line| ==> !IsBreak(line[j]) }

  /** The text consists of the lines, which have no boundary inside, and their line ends. */
  predicate IsLineSplit(lines: seq<string>, ends: seq<string>, s: string) {
    && |ends| == |lines| && Rebuilt(lines, ends) == s
    && (forall i :: 0 <= i < |ends| ==> IsLineEnd(ends[i], i == |ends| - 1))
    && (forall i :: 0 <= i < |lines| ==> NoBreak(lines[i]))
  }

  lemma OneMoreLineEnd(line: string, end: string, lines: seq<string>, ends: seq<string>, rest: string)
    requires IsLineSplit(lines, ends, rest) && NoBreak(line) && IsLineEnd(end, lines == [])
    ensures IsLineSplit([line] + lines, [end] + ends, line + end + rest)
  {
    var l, e := [line] + lines, [end] + ends;
    assert l[1..] == lines && e[1..] == ends;
    forall i | 0 <= i < |e| ensures IsLineEnd(e[i], i == |e| - 1) {
      if i > 0 { assert e[i] == ends[i - 1]; }
    }
  }

  lemma LastLine(line: string)
    requires NoBreak(line)
    ensures IsLineSplit([line], [""], line)
  {
    assert [line][1..] == [] && [""][1..] == [];
    assert Rebuilt([line], [""]) == line + "" + Rebuilt([], []);
  }

  lemma EndOfLine(s: string) returns (end: string)
    requires FirstBreak(s) < |s|
    ensures
      var k := FirstBreak(s);
      NoBreak(s[..k]) && IsLineEnd(end, false) && s == s[..k] + end + s[k + BreakWidth(s, k)..]
  {
    var k := FirstBreak(s);
    var w := BreakWidth(s, k);
    end := s[k..k + w];
    assert w == 2 ==> end == "\r\n";
    assert s[k..] == end + s[k + w..];
    assert s == s[..k] + s[k..] == s[..k] + end + s[k + w..];
  }

  /** `splitlines` cuts a text exactly at its line ends. */
  lemma {:induction false} SplitLinesMeaning(s: string) returns (ends: seq<string>)
    ensures IsLineSplit(SplitLines(s), ends, s)
    decreases |s|
  {
    var k := FirstBreak(s);
    ends := [];
    if s != "" {
      if k == |s| {
        LastLine(s);
        ends := [""];
      } else {
        var rest := s[k + BreakWidth(s, k)..];
        var end := EndOfLine(s);
        var more := SplitLinesMeaning(rest);
        OneMoreLineEnd(s[..k], end, SplitLines(rest), more, rest);
        ends := [end] + more;
      }
    }
  }

  /** `[p.strip() for p in lines if p.strip()]` */
  function NonBlank(lines: seq<string>): (r: seq<string>)
    ensures forall i :: 0 <= i < |r| ==> IsParagraph(r[i])
  {
    if lines == [] then []
    else (if Strip(lines[0]) == "" then [] else [Strip(lines[0])]) + NonBlank(lines[1..])
  }

  /** A stripped, non-empty line. */
  predicate IsParagraph(p: string) {
    p != "" && !IsSpace(p[0]) && !IsSpace(p[|p| - 1])
  }

  /** Stripping a paragraph changes nothing. */
  lemma StripParagraph(p: string)
    requires IsParagraph(p)
    ensures Strip(p) == p && Strip(" " + p) == p
  {
    var c := " " + p;
    assert LeadingSpace(p) == 0 && p[0..] == p && TrimmedLength(p) == |p| && p[..|p|] == p;
    assert c[1..] == p && LeadingSpace(c) == 1;
    assert LStrip(c) == p;
  }

  function Paragraphs(s: string): (r: seq<string>)
    ensures forall i :: 0 <= i < |r| ==> IsParagraph(r[i])
  {
    NonBlank(SplitLines(s))
  }

  function Concat(ss: seq<string>): string {
    if ss == [] then "" else ss[0] + Concat(ss[1..])
  }

  lemma {:induction false} ConcatAppend(a: seq<string>, b: seq<string>)
    ensures Concat(a + b) == Concat(a) + Concat(b)
  {
    if a == [] {
      assert a + b == b;
    } else {
      assert (a + b)[0] == a[0] && (a + b)[1..] == a[1..] + b;
      ConcatAppend(a[1..], b);
    }
  }

  lemma ConcatSnoc(a: seq<string>, x: string)
    ensures Concat(a + [x]) == Concat(a) + x
  {
    ConcatAppend(a, [x]);
    assert Concat([x]) == x + Concat([]);
  }

  lemma {:induction false} NonBlankInk(lines: seq<string>)
    ensures Ink(Concat(NonBlank(lines))) == Ink(Concat(lines))
  {
    if lines != [] {
      NonBlankInk(lines[1..]);
      StripInk(lines[0]);
      InkConcat(lines[0], Concat(lines[1..]));
      var rest := NonBlank(lines[1..]);
      if Strip(lines[0]) == "" {
        assert NonBlank(lines) == rest;
      } else {
        assert NonBlank(lines) == [Strip(lines[0])] + rest;
        InkConcat(Strip(lines[0]), Concat(rest));
      }
    }
  }

  /** A line boundary carries no ink. */
  lemma DropBreak(s: string, k: nat, w: nat, rest: string)
    requires k < |s| && IsBreak(s[k]) && w == BreakWidth(s, k)
    requires Ink(rest) == Ink(s[k + w..])
    ensures Ink(s[..k] + rest) == Ink(s)
  {
    InkConcat(s[..k], rest);
    InkCut(s, k);
    BreakInk(s[k..], w);
    assert s[k..][w..] == s[k + w..];
  }

  lemma BreakInk(t: string, w: nat)
    requires 1 <= w <= 2 && w <= |t| && IsBreak(t[0]) && (w == 2 ==> t[1] == '\n')
    ensures Ink(t) == Ink(t[w..])
  {
    InkCut(t, w);
    InkBlank(t[..w]);
  }

  lemma {:induction false} SplitLinesInk(s: string)
    ensures Ink(Concat(SplitLines(s))) == Ink(s)
    decreases |s|
  {
    if s != "" {
      var k := FirstBreak(s);
      if k == |s| {
        assert Concat([s]) == s;
      } else {
        var w := BreakWidth(s, k);
        SplitLinesInk(s[k + w..]);
        DropBreak(s, k, w, Concat(SplitLines(s[k + w..])));
      }
    }
  }

  /** Cutting a text into its paragraphs keeps exactly its ink, in order. */
  lemma ParagraphsInk(s: string)
    ensures Ink(Concat(Paragraphs(s))) == Ink(s)
    ensures Paragraphs(s) == [] <==> Blank(s)
  {
    SplitLinesInk(s);
    NonBlankInk(SplitLines(s));
    InkBlank(s);
    var ps := Paragraphs(s);
    if ps != [] {
      InkConcat(ps[0], Concat(ps[1..]));
    }
  }

  /** `sep.join(parts)` */
  function Join(sep: string, parts: seq<string>): string {
    if parts == [] then ""
    else if |parts| == 1 then parts[0]
    else parts[0] + sep + Join(sep, parts[1..])
  }

  lemma {:induction false} JoinSnoc(sep: string, a: seq<string>, x: string)
    requires a != []
    ensures Join(sep, a + [x]) == Join(sep, a) + sep + x
  {
    if |a| > 1 {
      assert (a + [x])[1..] == a[1..] + [x];
      JoinSnoc(sep, a[1..], x);
    }
  }

  function Min(a: int, b: int): int { if a <= b then a else b }

  /** `s[:n]` for n >= 0 */
  function Take<T>(s: seq<T>, n: nat): seq<T> { if n <= |s| then s[..n] else s }

  /** The last `n` elements, or all of them when there are fewer. */
  function Last<T>(s: seq<T>, n: nat): (r: seq<T>)
    ensures |r| == Min(n, |s|)
  {
    if n <= |s| then s[|s| - n..] else s
  }
}
