/** The server-sent event stream of the chat: the server's printer, and the browser's incremental parser,
    which splits only on a double line feed and joins data lines with nothing between them. */
module Sse {
  import opened Options
  import opened Text

  datatype StreamEvent<D> = StreamEvent(name: string, data: D)

  /** JSON as the two ends use it: `json.dumps` and `JSON.parse`, where None is a parse error. */
  datatype Json<!D> = Json(encode: D -> string, decode: string -> Option<D>)

  /** What JavaScript's `trim` removes. */
  predicate IsJsSpace(c: char) {
    || '\U{0009}' <= c <= '\U{000D}'
    || c == ' ' || c == '\U{00A0}' || c == '\U{1680}'
    || '\U{2000}' <= c <= '\U{200A}'
    || c == '\U{2028}' || c == '\U{2029}' || c == '\U{202F}'
    || c == '\U{205F}' || c == '\U{3000}' || c == '\U{FEFF}'
  }

  function TrimLeft(s: string): string {
    if s != "" && IsJsSpace(s[0]) then TrimLeft(s[1..]) else s
  }

  function TrimRight(s: string): string {
    if s != "" && IsJsSpace(s[|s| - 1]) then TrimRight(s[..|s| - 1]) else s
  }

  function Trim(s: string): string { TrimRight(TrimLeft(s)) }

  /** One line without white space at its ends. */
  predicate IsTight(s: string) {
    '\n' !in s && (s != "" ==> !IsJsSpace(s[0]) && !IsJsSpace(s[|s| - 1]))
  }

  /** JSON texts are single lines, not empty, without white space at their ends, and parse back. */
  ghost predicate IsCodec<D(!new)>(json: Json<D>) {
    forall d: D :: json.encode(d) != "" && IsTight(json.encode(d)) && json.decode(json.encode(d)) == Some(d)
  }

  // ---------------------------------------------------------------- the printer

  function Body<D>(json: Json<D>, e: StreamEvent<D>): string {
    ("event: " + e.name) + "\n" + ("data: " + json.encode(e.data))
  }

  /** `f"event: {name}\ndata: {data}\n\n"` */
  function Print<D>(json: Json<D>, e: StreamEvent<D>): string { Body(json, e) + "\n\n" }

  function PrintAll<D>(json: Json<D>, events: seq<StreamEvent<D>>): string {
    if events == [] then "" else Print(json, events[0]) + PrintAll(json, events[1..])
  }

  // ---------------------------------------------------------------- the parser

  /** `indexOf("\n\n")`, or |s| when there is none. */
  function FirstBlank(s: string): (k: nat)
    ensures k <= |s|
    ensures k < |s| ==> k + 1 < |s| && s[k] == '\n' && s[k + 1] == '\n'
  {
    if |s| < 2 then |s| else if s[0] == '\n' && s[1] == '\n' then 0 else 1 + FirstBlank(s[1..])
  }

  /** The complete blocks of a buffer, and what remains. */
  function Blocks(s: string): seq<string>
    decreases |s|
  {
    var k := FirstBlank(s);
    if k == |s| then [] else [s[..k]] + Blocks(s[k + 2..])
  }

  function Rest(s: string): string
    decreases |s|
  {
    var k := FirstBlank(s);
    if k == |s| then s else Rest(s[k + 2..])
  }

  /** `split("\n")` */
  function SplitLf(s: string): (lines: seq<string>)
    ensures lines != []
  {
    if s == "" then [""]
    else
      var lines := SplitLf(s[1..]);
      if s[0] == '\n' then [""] + lines else [[s[0]] + lines[0]] + lines[1..]
  }

  predicate StartsWith(s: string, prefix: string) { |prefix| <= |s| && s[..|prefix|] == prefix }

  /** The event name and the data after some lines. */
  function Fields(lines: seq<string>): (string, string) {
    if lines == [] then ("message", "")
    else
      var (event, data) := Fields(lines[..|lines| - 1]);
      var line := lines[|lines| - 1];
      if StartsWith(line, "event:") then (Trim(line[6..]), data)
      else if StartsWith(line, "data:") then (event, data + Trim(line[5..]))
      else (event, data)
  }

  /** `parseSseBlock` */
  function ParseBlock<D>(json: Json<D>, raw: string): Option<StreamEvent<D>> {
    var (event, data) := Fields(SplitLf(raw));
    if data == "" then None
    else
      match json.decode(data)
      case None => None
      case Some(d) => Some(StreamEvent(event, d))
  }

  function Parser<D>(json: Json<D>): string -> Option<StreamEvent<D>> { raw => ParseBlock(json, raw) }

  /** The results of the blocks that parse. */
  function Collect<E>(p: string -> Option<E>, blocks: seq<string>): seq<E> {
    if blocks == [] then [] else Collect(p, blocks[..|blocks| - 1]) + Listed(p(blocks[|blocks| - 1]))
  }

  function Listed<E>(x: Option<E>): seq<E> { if x.Some? then [x.value] else [] }

  /** What a client with block parser `p` makes of the whole text at once. */
  function Received<E>(p: string -> Option<E>, text: string): seq<E> { Collect(p, Blocks(text)) }

  function Client<D>(json: Json<D>, text: string): seq<StreamEvent<D>> { Received(Parser(json), text) }

  method ParseSseBlock<D>(json: Json<D>, raw: string) returns (r: Option<StreamEvent<D>>)
    ensures r == ParseBlock(json, raw)
  {
    var event, data := "message", "";
    var lines := SplitLf(raw);
    for i := 0 to |lines|
      invariant (event, data) == Fields(lines[..i])
    {
      assert lines[..i + 1][..i] == lines[..i];
      var line := lines[i];
      if StartsWith(line, "event:") {
        event := Trim(line[6..]);
      } else if StartsWith(line, "data:") {
        data := data + Trim(line[5..]);
      }
    }
    assert lines[..|lines|] == lines;
    if data == "" { return None; }
    r := match json.decode(data) case None => None case Some(d) => Some(StreamEvent(event, d));
  }

  /** The buffer loop of `askStream`: for any fragmentation, the events are those of the joined text. */
  method ReadStream<D>(json: Json<D>, fragments: seq<string>) returns (events: seq<StreamEvent<D>>)
    ensures events == Client(json, Concat(fragments))
  {
    ghost var p := Parser(json);
    events := [];
    var buffer := "";
    for i := 0 to |fragments|
      invariant events == Received(p, Concat(fragments[..i])) && buffer == Rest(Concat(fragments[..i]))
    {
      assert fragments[..i + 1] == fragments[..i] + [fragments[i]];
      ConcatSnoc(fragments[..i], fragments[i]);
      ReceivedAppend(p, Concat(fragments[..i]), fragments[i]);
      buffer := buffer + fragments[i];
      var parsed;
      parsed, buffer := DrainBuffer(json, buffer, p);
      events := events + parsed;
    }
    assert fragments[..|fragments|] == fragments;
  }

  /** The inner loop: every complete block leaves the buffer. */
  method DrainBuffer<D>(json: Json<D>, whole: string, ghost p: string -> Option<StreamEvent<D>>)
      returns (events: seq<StreamEvent<D>>, buffer: string)
    requires p == Parser(json)
    ensures events == Received(p, whole) && buffer == Rest(whole)
  {
    events, buffer := [], whole;
    while FirstBlank(buffer) < |buffer|
      invariant events + Received(p, buffer) == Received(p, whole) && Rest(buffer) == Rest(whole)
      decreases |buffer|
    {
      var parsed, rest := NextEvent(json, buffer, p);
      Prepend(events, Listed(parsed), Received(p, rest));
      events, buffer := events + Listed(parsed), rest;
    }
  }

  method NextEvent<D>(json: Json<D>, buffer: string, ghost p: string -> Option<StreamEvent<D>>)
      returns (parsed: Option<StreamEvent<D>>, rest: string)
    requires p == Parser(json) && FirstBlank(buffer) < |buffer|
    ensures Received(p, buffer) == Listed(parsed) + Received(p, rest)
    ensures Rest(buffer) == Rest(rest) && |rest| < |buffer|
  {
    var sep := FirstBlank(buffer);
    ghost var raw', rest' := PopBlock(p, buffer);
    var raw := buffer[..sep];
    rest := buffer[sep + 2..];
    parsed := ParseSseBlock(json, raw);
  }

  // ---------------------------------------------------------------- fragmentation

  lemma {:induction false} FirstBlankStable(s: string, t: string)
    requires FirstBlank(s) < |s|
    ensures FirstBlank(s + t) == FirstBlank(s)
  {
    assert (s + t)[..2] == s[..2];
    if !(s[0] == '\n' && s[1] == '\n') {
      assert (s + t)[1..] == s[1..] + t;
      FirstBlankStable(s[1..], t);
    }
  }

  lemma FirstBlockOf(s: string) returns (raw: string, rest: string)
    requires FirstBlank(s) < |s|
    ensures raw == s[..FirstBlank(s)] && rest == s[FirstBlank(s) + 2..]
    ensures Blocks(s) == [raw] + Blocks(rest) && Rest(s) == Rest(rest)
  {
    raw, rest := s[..FirstBlank(s)], s[FirstBlank(s) + 2..];
  }

  lemma SliceAppend(s: string, t: string, i: nat)
    requires i <= |s|
    ensures (s + t)[..i] == s[..i] && (s + t)[i..] == s[i..] + t
  {
  }

  /** Text that arrives later changes no block that is already complete. */
  lemma {:induction false} BlocksAppend(s: string, t: string)
    ensures Blocks(s + t) == Blocks(s) + Blocks(Rest(s) + t)
    ensures Rest(s + t) == Rest(Rest(s) + t)
    decreases |s|
  {
    if FirstBlank(s) < |s| {
      var raw, rest := FirstBlockOf(s);
      FirstBlockStays(s, t, raw, rest);
      BlocksAppend(rest, t);
      Prepend([raw], Blocks(rest), Blocks(Rest(s) + t));
    } else {
      NoBlockOf(s);
    }
  }

  lemma NoBlockOf(s: string)
    requires FirstBlank(s) == |s|
    ensures Blocks(s) == [] && Rest(s) == s
  {
  }

  lemma FirstBlockStays(s: string, t: string, raw: string, rest: string)
    requires FirstBlank(s) < |s| && raw == s[..FirstBlank(s)] && rest == s[FirstBlank(s) + 2..]
    ensures Blocks(s + t) == [raw] + Blocks(rest + t) && Rest(s + t) == Rest(rest + t)
  {
    FirstBlankStable(s, t);
    SliceAppend(s, t, FirstBlank(s));
    SliceAppend(s, t, FirstBlank(s) + 2);
    var raw', rest' := FirstBlockOf(s + t);
  }

  lemma Prepend<T>(a: seq<T>, b: seq<T>, c: seq<T>)
    ensures a + (b + c) == (a + b) + c
  {
  }

  lemma ReceivedAppend<E>(p: string -> Option<E>, s: string, t: string)
    ensures Received(p, s + t) == Received(p, s) + Received(p, Rest(s) + t)
    ensures Rest(s + t) == Rest(Rest(s) + t)
  {
    BlocksAppend(s, t);
    CollectConcat(p, Blocks(s), Blocks(Rest(s) + t));
  }

  lemma {:induction false} CollectConcat<E>(p: string -> Option<E>, a: seq<string>, b: seq<string>)
    ensures Collect(p, a + b) == Collect(p, a) + Collect(p, b)
  {
    if b == [] {
      assert a + b == a;
    } else {
      var n := |b| - 1;
      assert (a + b)[..|a + b| - 1] == a + b[..n];
      CollectConcat(p, a, b[..n]);
    }
  }

  /** The first block of a buffer, and everything after it. */
  lemma CollectPrepend<E>(p: string -> Option<E>, block: string, blocks: seq<string>)
    ensures Collect(p, [block] + blocks) == Listed(p(block)) + Collect(p, blocks)
  {
    CollectConcat(p, [block], blocks);
    assert [block][..0] == [];
  }

  lemma PopBlock<E>(p: string -> Option<E>, buffer: string) returns (raw: string, rest: string)
    requires FirstBlank(buffer) < |buffer|
    ensures raw == buffer[..FirstBlank(buffer)] && rest == buffer[FirstBlank(buffer) + 2..]
    ensures Received(p, buffer) == Listed(p(raw)) + Received(p, rest) && Rest(buffer) == Rest(rest)
  {
    raw, rest := FirstBlockOf(buffer);
    CollectPrepend(p, raw, Blocks(rest));
  }

  // ---------------------------------------------------------------- what a block says

  lemma {:induction false} TrimLeftMeaning(s: string) returns (i: nat)
    ensures i <= |s| && TrimLeft(s) == s[i..] && (forall k :: 0 <= k < i ==> IsJsSpace(s[k]))
    ensures i < |s| ==> !IsJsSpace(s[i])
  {
    if s != "" && IsJsSpace(s[0]) {
      var j := TrimLeftMeaning(s[1..]);
      i := j + 1;
      assert s[1..][j..] == s[i..];
      assert forall k :: 1 <= k < i ==> s[k] == s[1..][k - 1];
    } else {
      i := 0;
      assert s[0..] == s;
    }
  }

  lemma {:induction false} TrimRightMeaning(s: string) returns (j: nat)
    ensures j <= |s| && TrimRight(s) == s[..j] && (forall k :: j <= k < |s| ==> IsJsSpace(s[k]))
    ensures j > 0 ==> !IsJsSpace(s[j - 1])
  {
    j := |s|;
    if s != "" && IsJsSpace(s[|s| - 1]) {
      j := TrimRightMeaning(s[..|s| - 1]);
      assert s[..|s| - 1][..j] == s[..j];
      assert forall k :: 0 <= k < |s| - 1 ==> s[k] == s[..|s| - 1][k];
    } else {
      assert s[..|s|] == s;
    }
  }

  /** `trim` cuts exactly the white space at both ends. */
  lemma TrimMeaning(s: string) returns (i: nat, j: nat)
    ensures i <= j <= |s| && Trim(s) == s[i..j] && (forall k :: 0 <= k < |s| && !(i <= k < j) ==> IsJsSpace(s[k]))
    ensures i < j ==> !IsJsSpace(s[i]) && !IsJsSpace(s[j - 1])
  {
    i := TrimLeftMeaning(s);
    var t := s[i..];
    var n := TrimRightMeaning(t);
    j := i + n;
    assert t[..n] == s[i..j];
    assert forall k :: j <= k < |s| ==> s[k] == t[k - i];
  }

  /** What each line adds to the data. */
  function DataParts(lines: seq<string>): (r: seq<string>)
    ensures |r| == |lines|
  {
    seq(|lines|, i requires 0 <= i < |lines| =>
      if "data:" <= lines[i] then Trim(lines[i][5..]) else "")
  }

  predicate NamesEvent(lines: seq<string>, i: nat, name: string) {
    && i < |lines| && "event:" <= lines[i] && name == Trim(lines[i][6..])
    && forall j :: i < j < |lines| ==> !("event:" <= lines[j])
  }

  lemma PrefixMeaning(line: string)
    ensures StartsWith(line, "event:") <==> "event:" <= line
    ensures StartsWith(line, "data:") <==> "data:" <= line
    ensures !("event:" <= line && "data:" <= line)
  {
    assert "event:"[0] == 'e' && "data:"[0] == 'd';
  }

  lemma FieldsSnoc(lines: seq<string>, line: string)
    ensures
      var before := Fields(lines);
      Fields(lines + [line]) == if "event:" <= line then (Trim(line[6..]), before.1)
                                else if "data:" <= line then (before.0, before.1 + Trim(line[5..]))
                                else before
  {
    assert (lines + [line])[..|lines|] == lines;
    PrefixMeaning(line);
  }

  /** The data are what the `data:` lines say, each trimmed, with nothing between them. */
  lemma {:induction false} DataMeaning(lines: seq<string>)
    ensures Fields(lines).1 == Concat(DataParts(lines))
  {
    if lines != [] {
      var n := |lines| - 1;
      var init, line := lines[..n], lines[n];
      assert lines == init + [line];
      DataMeaning(init);
      FieldsSnoc(init, line);
      PrefixMeaning(line);
      var part := if "data:" <= line then Trim(line[5..]) else "";
      assert DataParts(lines) == DataParts(init) + [part];
      ConcatSnoc(DataParts(init), part);
      assert Fields(init).1 + "" == Fields(init).1;
    }
  }

  /** The event name is what the last `event:` line says, trimmed, or "message" without one. */
  lemma {:induction false} NameMeaning(lines: seq<string>)
    ensures if exists i :: 0 <= i < |lines| && "event:" <= lines[i]
            then exists i: nat :: NamesEvent(lines, i, Fields(lines).0) else Fields(lines).0 == "message"
  {
    if lines != [] {
      var n := |lines| - 1;
      var init, line := lines[..n], lines[n];
      assert lines == init + [line];
      NameMeaning(init);
      FieldsSnoc(init, line);
      if "event:" <= line {
        assert NamesEvent(lines, n, Fields(lines).0);
      } else if i: nat :| NamesEvent(init, i, Fields(init).0) {
        assert lines[i] == init[i];
        assert NamesEvent(lines, i, Fields(lines).0);
      } else {
        assert forall i :: 0 <= i < n ==> lines[i] == init[i];
      }
    }
  }

  // ---------------------------------------------------------------- one event, printed and parsed

  lemma {:induction false} SplitLine(a: string)
    requires '\n' !in a
    ensures SplitLf(a) == [a]
  {
    if a != "" {
      SplitLine(a[1..]);
      assert [a[0]] + a[1..] == a;
    }
  }

  lemma {:induction false} SplitMore(a: string, b: string)
    requires '\n' !in a
    ensures SplitLf(a + "\n" + b) == [a] + SplitLf(b)
  {
    var s := a + "\n" + b;
    if a == "" {
      assert s[1..] == b;
    } else {
      assert s[0] == a[0] && s[1..] == a[1..] + "\n" + b;
      SplitMore(a[1..], b);
      assert [a[0]] + a[1..] == a;
    }
  }

  lemma SplitTwoLines(a: string, b: string)
    requires '\n' !in a && '\n' !in b
    ensures SplitLf(a + "\n" + b) == [a, b]
  {
    SplitMore(a, b);
    SplitLine(b);
  }

  lemma TrimSpace(x: string)
    requires IsTight(x)
    ensures Trim(" " + x) == x
  {
    assert (" " + x)[1..] == x;
    assert TrimLeft(" " + x) == TrimLeft(x);
  }

  lemma FieldsOfTwo(name: string, data: string)
    requires IsTight(name) && IsTight(data)
    ensures Fields(["event: " + name, "data: " + data]) == (name, data)
  {
    var a, b := "event: " + name, "data: " + data;
    assert a[..6] == "event:" && a[6..] == " " + name;
    assert b[..5] == "data:" && b[5..] == " " + data && b[0] != 'e';
    TrimSpace(name);
    TrimSpace(data);
    assert [a][..0] == [] && [a, b][..1] == [a];
    assert StartsWith(a, "event:") && !StartsWith(b, "event:") && StartsWith(b, "data:");
    assert Fields([a]) == (name, "");
    assert "" + data == data;
  }

  /** On the wire an event is an `event:` line, a `data:` line with its JSON text, and an empty line. */
  lemma PrintedLines<D(!new)>(json: Json<D>, e: StreamEvent<D>)
    requires IsCodec(json) && IsTight(e.name)
    ensures SplitLf(Print(json, e)) == ["event: " + e.name, "data: " + json.encode(e.data), "", ""]
  {
    var a, b := "event: " + e.name, "data: " + json.encode(e.data);
    SplitTwoLines("", "");
    assert "" + "\n" + "" == "\n";
    SplitMore(b, "\n");
    SplitMore(a, b + "\n" + "\n");
    assert Print(json, e) == a + "\n" + (b + "\n" + "\n");
  }

  lemma ParsePrinted<D(!new)>(json: Json<D>, e: StreamEvent<D>)
    requires IsCodec(json) && IsTight(e.name)
    ensures ParseBlock(json, Body(json, e)) == Some(e)
  {
    var text := json.encode(e.data);
    SplitTwoLines("event: " + e.name, "data: " + text);
    FieldsOfTwo(e.name, text);
  }

  /** Neither line is empty, so the first blank line of a printed event is the one that ends it. */
  lemma {:induction false} FirstBlankAt(s: string, t: string)
    requires s != "" && s[|s| - 1] != '\n'
    requires forall i :: 0 <= i < |s| - 1 ==> !(s[i] == '\n' && s[i + 1] == '\n')
    ensures FirstBlank(s + "\n\n" + t) == |s|
  {
    var u := s + "\n\n" + t;
    assert u[0] == s[0];
    if |s| == 1 {
      assert u[1..] == "\n\n" + t;
      assert FirstBlank(u[1..]) == 0;
    } else {
      assert u[1] == s[1];
      assert u[1..] == s[1..] + "\n\n" + t;
      assert forall i :: 0 <= i < |s[1..]| ==> s[1..][i] == s[i + 1];
      FirstBlankAt(s[1..], t);
    }
  }

  lemma BodyShape<D(!new)>(json: Json<D>, e: StreamEvent<D>)
    requires IsCodec(json) && IsTight(e.name)
    ensures
      var s := Body(json, e);
      && s != "" && s[|s| - 1] != '\n'
      && (forall i :: 0 <= i < |s| - 1 ==> !(s[i] == '\n' && s[i + 1] == '\n'))
  {
    var text := json.encode(e.data);
    var a, b := "event: " + e.name, "data: " + text;
    var s := Body(json, e);
    assert s == a + "\n" + b;
    assert forall i :: 0 <= i < |a| ==> s[i] == a[i];
    assert forall i :: |a| < i < |s| ==> s[i] == b[i - |a| - 1];
    assert '\n' !in a && '\n' !in b;
    assert b[|b| - 1] == text[|text| - 1];
  }

  lemma FirstBlock<D(!new)>(json: Json<D>, e: StreamEvent<D>, t: string)
    requires IsCodec(json) && IsTight(e.name)
    ensures Blocks(Print(json, e) + t) == [Body(json, e)] + Blocks(t)
    ensures Rest(Print(json, e) + t) == Rest(t)
  {
    var s := Body(json, e);
    BodyShape(json, e);
    FirstBlankAt(s, t);
    var u := Print(json, e) + t;
    assert u == s + "\n\n" + t;
    assert u[..|s|] == s && u[|s| + 2..] == t;
  }

  // ---------------------------------------------------------------- what the stream promises

  ghost predicate GoodNames<D>(events: seq<StreamEvent<D>>) {
    forall i :: 0 <= i < |events| ==> IsTight(events[i].name)
  }

  lemma ClientStep<D(!new)>(json: Json<D>, e: StreamEvent<D>, t: string)
    requires IsCodec(json) && IsTight(e.name)
    ensures Client(json, Print(json, e) + t) == [e] + Client(json, t)
  {
    FirstBlock(json, e, t);
    ParsePrinted(json, e);
    CollectPrepend(Parser(json), Body(json, e), Blocks(t));
  }

  /** Parsing what was printed gives back the events. */
  lemma {:induction false} PrintedTextParses<D(!new)>(json: Json<D>, events: seq<StreamEvent<D>>)
    requires IsCodec(json) && GoodNames(events)
    ensures Client(json, PrintAll(json, events)) == events
  {
    if events != [] {
      PrintedTextParses(json, events[1..]);
      ClientStep(json, events[0], PrintAll(json, events[1..]));
    }
  }

  /** The round trip, for any fragmentation: whatever pieces the printed text arrives in, the client
      sees the same list of events. */
  lemma RoundTrip<D(!new)>(json: Json<D>, events: seq<StreamEvent<D>>, fragments: seq<string>)
    requires IsCodec(json) && GoodNames(events)
    requires Concat(fragments) == PrintAll(json, events)
    ensures Client(json, Concat(fragments)) == events
  {
    PrintedTextParses(json, events);
  }

  /** A proper prefix of one printed event is no event yet. */
  lemma PartialEvent<D(!new)>(json: Json<D>, e: StreamEvent<D>, n: nat)
    requires IsCodec(json) && IsTight(e.name) && n < |Print(json, e)|
    ensures Client(json, Print(json, e)[..n]) == []
  {
    var u, s := Print(json, e), Body(json, e);
    BodyShape(json, e);
    FirstBlankAt(s, "");
    assert s + "\n\n" + "" == u;
    var p := u[..n];
    assert p + u[n..] == u;
    if FirstBlank(p) < |p| {
      FirstBlankStable(p, u[n..]);
    }
  }

  lemma TruncatedFirst<D(!new)>(json: Json<D>, events: seq<StreamEvent<D>>, n: nat)
    requires IsCodec(json) && GoodNames(events) && events != [] && n < |Print(json, events[0])|
    ensures Client(json, PrintAll(json, events)[..n]) == []
    ensures |PrintAll(json, events[..0])| <= n < |PrintAll(json, events[..1])|
  {
    var u, rest := Print(json, events[0]), PrintAll(json, events[1..]);
    assert PrintAll(json, events) == u + rest;
    assert (u + rest)[..n] == u[..n];
    PartialEvent(json, events[0], n);
    PrintAllTake(json, events, 0);
  }

  lemma TruncatedLater<D(!new)>(json: Json<D>, events: seq<StreamEvent<D>>, n: nat, m: nat)
    requires IsCodec(json) && GoodNames(events) && events != [] && m < |events|
    requires |Print(json, events[0])| <= n <= |PrintAll(json, events)|
    requires Client(json, PrintAll(json, events[1..])[..n - |Print(json, events[0])|]) == events[1..][..m]
    ensures Client(json, PrintAll(json, events)[..n]) == events[..m + 1]
  {
    var u, rest := Print(json, events[0]), PrintAll(json, events[1..]);
    TakeBehind(u, rest, n);
    ClientStep(json, events[0], rest[..n - |u|]);
    HeadAndTake(events, m);
  }

  lemma TakeBehind(u: string, rest: string, n: nat)
    requires |u| <= n <= |u + rest|
    ensures (u + rest)[..n] == u + rest[..n - |u|]
  {
  }

  lemma HeadAndTake<E>(events: seq<E>, m: nat)
    requires m < |events|
    ensures [events[0]] + events[1..][..m] == events[..m + 1]
  {
  }

  /** `n` characters of the printed text hold exactly the first `k` events. */
  ghost predicate Holds<D>(json: Json<D>, events: seq<StreamEvent<D>>, n: nat, k: nat) {
    && k <= |events| && |PrintAll(json, events[..k])| <= n
    && (k < |events| ==> n < |PrintAll(json, events[..k + 1])|)
  }

  lemma HoldsLater<D>(json: Json<D>, events: seq<StreamEvent<D>>, n: nat, m: nat)
    requires events != [] && |Print(json, events[0])| <= n
    requires Holds(json, events[1..], n - |Print(json, events[0])|, m)
    ensures Holds(json, events, n, m + 1)
  {
    PrintAllTake(json, events, m);
    if m + 1 < |events| { PrintAllTake(json, events, m + 1); }
  }

  /** A connection that breaks off, at any character, shows the client exactly the events that were
      complete: a prefix of the list, never a mutilated event. */
  lemma {:induction false} TruncatedStream<D(!new)>(json: Json<D>, events: seq<StreamEvent<D>>, n: nat) returns (k: nat)
    requires IsCodec(json) && GoodNames(events) && n <= |PrintAll(json, events)|
    ensures Holds(json, events, n, k) && Client(json, PrintAll(json, events)[..n]) == events[..k]
  {
    if events == [] {
      k := 0;
    } else if n < |Print(json, events[0])| {
      k := 0;
      TruncatedFirst(json, events, n);
    } else {
      var m := TruncatedStream(json, events[1..], n - |Print(json, events[0])|);
      k := m + 1;
      HoldsLater(json, events, n, m);
      TruncatedLater(json, events, n, m);
    }
  }

  lemma PrintAllTake<D>(json: Json<D>, events: seq<StreamEvent<D>>, m: nat)
    requires m < |events|
    ensures PrintAll(json, events[..m + 1]) == Print(json, events[0]) + PrintAll(json, events[1..][..m])
  {
    assert events[..m + 1][1..] == events[1..][..m];
  }
}
