/** One question to the chat: the order of the streamed events and the stored answer, from the service
    through the event stream to the client. */
module ChatStream {
  import opened Options
  import opened Text
  import opened Sse

  datatype Payload =
    | SourceList(sources: seq<string>)
    | Impact(root: string, nodes: seq<string>)
    | Delta(delta: string)
    | Finished(messageId: nat)
    | Failed(code: string)

  type ChatEvent = StreamEvent<Payload>

  datatype Role = User | Assistant

  /** A stored message; an answer keeps the citations and the impact that were shown with it. */
  datatype Message = Message(role: Role, content: string, sources: seq<string>, impact: Option<(string, seq<string>)>)

  /** Where the handling of a question can fail. `AtModel(n)` is a failure after `n` answer parts. */
  datatype Fault =
    | NoFault | AtSession | AtRetrieval | AtHistory | AtQuestionInsert
    | AtModel(parts: nat) | AtAnswerInsert | AtSessionUpdate

  /** What the collaborators return for the question. */
  datatype Context = Context(sources: seq<string>, impact: Option<(string, seq<string>)>, parts: seq<string>,
                             fault: Fault)

  const INTERNAL_ERROR: ChatEvent := StreamEvent("error", Failed("INTERNAL_ERROR"))
  const LLM_ERROR: ChatEvent := StreamEvent("error", Failed("LLM_ERROR"))

  function Tokens(parts: seq<string>): (r: seq<ChatEvent>)
    ensures |r| == |parts|
    ensures forall i :: 0 <= i < |r| ==> r[i] == StreamEvent("token", Delta(parts[i]))
  {
    seq(|parts|, i requires 0 <= i < |parts| => StreamEvent("token", Delta(parts[i])))
  }

  /** The text a client shows: the deltas of the token events, joined. */
  function Shown(events: seq<ChatEvent>): string {
    if events == [] then ""
    else
      Shown(events[..|events| - 1]) + DeltaOf(events[|events| - 1])
  }

  predicate IsDone(e: ChatEvent) { e.name == "done" && e.data.Finished? }

  predicate IsError(e: ChatEvent) { e.name == "error" && e.data.Failed? }

  /** sources, at most one graph event, tokens, and at most one final done or error event; a failure
      before the sources is a lone error, a blank question is no event at all. */
  ghost predicate WellOrdered(events: seq<ChatEvent>) {
    || events == []
    || events == [INTERNAL_ERROR]
    || exists graph: nat, tokens: nat :: Ordered(events, graph, tokens)
  }

  ghost predicate Ordered(events: seq<ChatEvent>, graph: nat, tokens: nat) {
    && graph <= 1 && 1 + graph + tokens <= |events| <= 2 + graph + tokens
    && events[0].name == "sources" && events[0].data.SourceList?
    && (graph == 1 ==> events[1].name == "graph" && events[1].data.Impact?)
    && (forall i :: 1 + graph <= i < 1 + graph + tokens ==> events[i].name == "token" && events[i].data.Delta?)
    && (1 + graph + tokens < |events| ==> IsDone(events[|events| - 1]) || IsError(events[|events| - 1]))
  }

  function DeltaOf(e: ChatEvent): string { if e.name == "token" && e.data.Delta? then e.data.delta else "" }

  lemma ShownSnoc(a: seq<ChatEvent>, e: ChatEvent)
    ensures Shown(a + [e]) == Shown(a) + DeltaOf(e)
  {
    assert (a + [e])[..|a|] == a;
  }

  lemma {:induction false} ShownConcat(a: seq<ChatEvent>, b: seq<ChatEvent>)
    ensures Shown(a + b) == Shown(a) + Shown(b)
  {
    if b == [] {
      assert a + b == a;
    } else {
      var init, e := b[..|b| - 1], b[|b| - 1];
      assert b == init + [e] && a + b == (a + init) + [e];
      ShownConcat(a, init);
      ShownSnoc(a + init, e);
      ShownSnoc(init, e);
    }
  }

  lemma {:induction false} ShownTokens(parts: seq<string>)
    ensures Shown(Tokens(parts)) == Concat(parts)
  {
    if parts != [] {
      var n := |parts| - 1;
      assert Tokens(parts)[..n] == Tokens(parts[..n]);
      ShownTokens(parts[..n]);
      ConcatSnoc(parts[..n], parts[n]);
      assert parts == parts[..n] + [parts[n]];
    }
  }

  lemma ShownSilent(e: ChatEvent)
    requires e.name != "token"
    ensures Shown([e]) == ""
  {
    assert [e][..0] == [];
  }

  /** The events before the tokens: sources, then possibly the graph. */
  ghost predicate IsHead(head: seq<ChatEvent>) {
    && 1 <= |head| <= 2
    && head[0].name == "sources" && head[0].data.SourceList?
    && (|head| == 2 ==> head[1].name == "graph" && head[1].data.Impact?)
  }

  ghost predicate DoneOnlyLast(events: seq<ChatEvent>) {
    forall i :: 0 <= i < |events| && IsDone(events[i]) ==> i == |events| - 1
  }

  lemma WholeStream(head: seq<ChatEvent>, parts: seq<string>, last: ChatEvent)
    requires IsHead(head) && (IsDone(last) || IsError(last))
    ensures
      var events := head + Tokens(parts) + [last];
      WellOrdered(events) && GoodNames(events) && DoneOnlyLast(events) && events[|events| - 1] == last
  {
    var events := head + Tokens(parts) + [last];
    var n := |head| + |parts|;
    assert |events| == n + 1 && events[n] == last;
    forall i | 0 <= i < n
      ensures if i < |head| then events[i] == head[i] else events[i].name == "token" && events[i].data.Delta?
    {
    }
    assert Ordered(events, |head| - 1, |parts|);
    forall i | 0 <= i <= n ensures IsTight(events[i].name) && (IsDone(events[i]) ==> i == n) {
    }
  }

  /** How many answer parts reach the client. */
  function PartsSent(c: Context): (n: nat)
    ensures n <= |c.parts|
  {
    match c.fault
    case AtModel(parts) => if parts <= |c.parts| then parts else |c.parts|
    case AtSession | AtRetrieval | AtHistory | AtQuestionInsert => 0
    case _ => |c.parts|
  }

  /** The last event: done with the number of the answer, or an error with its code. */
  predicate IsEnd(e: ChatEvent, fault: Fault, answer: int) {
    if fault == NoFault then answer >= 0 && e == StreamEvent("done", Finished(answer))
    else e == StreamEvent("error", Failed(if fault.AtModel? then "LLM_ERROR" else "INTERNAL_ERROR"))
  }

  /** The events for a question once its sources are found: the sources, the graph if there is an impact, the tokens
      of the parts that were sent, and the end. */
  predicate IsReply(events: seq<ChatEvent>, c: Context, answer: int) {
    var graph, n := if c.impact.Some? then 1 else 0, PartsSent(c);
    && |events| == 2 + graph + n
    && events[0] == StreamEvent("sources", SourceList(c.sources))
    && (c.impact.Some? ==> events[1] == StreamEvent("graph", Impact(c.impact.value.0, c.impact.value.1)))
    && (forall i :: 0 <= i < n ==> events[1 + graph + i] == StreamEvent("token", Delta(c.parts[i])))
    && IsEnd(events[|events| - 1], c.fault, answer)
  }

  /** All events for a question: none for a blank one, a lone error if its sources are not found. */
  predicate Answers(events: seq<ChatEvent>, question: string, c: Context, answer: int) {
    if c.fault == AtSession then events == [StreamEvent("error", Failed("INTERNAL_ERROR"))]
    else if Strip(question) == "" then events == []
    else if c.fault == AtRetrieval then events == [StreamEvent("error", Failed("INTERNAL_ERROR"))]
    else IsReply(events, c, answer)
  }

  /** The messages after a question: with itself once the history is read, and with the answer if the reply was
      complete and could be inserted. */
  predicate Stores(before: seq<Message>, after: seq<Message>, question: string, c: Context) {
    var asked := before + [Message(User, Strip(question), [], None)];
    if Strip(question) == "" || c.fault in {AtSession, AtRetrieval, AtHistory, AtQuestionInsert} then after == before
    else if c.fault.AtModel? || c.fault == AtAnswerInsert then after == asked
    else after == asked + [Message(Assistant, Concat(c.parts), c.sources, c.impact)]
  }

  /** The client sees a final `done` exactly when nothing failed and the question was not blank, and then the deltas
      it has joined are the stored answer to the stored question. */
  predicate Agrees(events: seq<ChatEvent>, question: string, c: Context, before: seq<Message>, after: seq<Message>) {
    && (events != [] && IsDone(events[|events| - 1]) <==> c.fault == NoFault && Strip(question) != "")
    && (c.fault == NoFault && Strip(question) != "" ==>
          after == before + [Message(User, Strip(question), [], None),
                             Message(Assistant, Shown(events), c.sources, c.impact)])
  }

  lemma HeadAndTokens(head: seq<ChatEvent>, tokens: seq<ChatEvent>, last: ChatEvent, c: Context, answer: int)
    requires head == [StreamEvent("sources", SourceList(c.sources))]
      + (if c.impact.Some? then [StreamEvent("graph", Impact(c.impact.value.0, c.impact.value.1))] else [])
    requires tokens == Tokens(c.parts[..PartsSent(c)]) && IsEnd(last, c.fault, answer)
    ensures IsReply(head + tokens + [last], c, answer)
  {
    var events := head + tokens + [last];
    forall i | 0 <= i < PartsSent(c) ensures events[|head| + i] == StreamEvent("token", Delta(c.parts[i])) {
      assert events[|head| + i] == tokens[i];
    }
  }

  lemma ReplyParts(events: seq<ChatEvent>, c: Context, answer: int) returns (head: seq<ChatEvent>, last: ChatEvent)
    requires IsReply(events, c, answer)
    ensures IsHead(head) && IsEnd(last, c.fault, answer) && events == head + Tokens(c.parts[..PartsSent(c)]) + [last]
  {
    head, last := events[..if c.impact.Some? then 2 else 1], events[|events| - 1];
  }

  lemma ReplyOrdered(events: seq<ChatEvent>, c: Context, answer: int)
    requires IsReply(events, c, answer)
    ensures WellOrdered(events) && GoodNames(events) && DoneOnlyLast(events)
  {
    var head, last := ReplyParts(events, c, answer);
    WholeStream(head, c.parts[..PartsSent(c)], last);
  }

  lemma ReplyShown(events: seq<ChatEvent>, c: Context, answer: int)
    requires IsReply(events, c, answer) && c.fault == NoFault
    ensures Shown(events) == Concat(c.parts)
  {
    var head, last := ReplyParts(events, c, answer);
    assert c.parts[..PartsSent(c)] == c.parts;
    ShownHead(head);
    ShownAnswer(head, c.parts, last);
  }

  predicate IsReplied(question: string, c: Context) {
    c.fault != AtSession && c.fault != AtRetrieval && Strip(question) != ""
  }

  /** The events of every question are well ordered. */
  lemma AnswersOrdered(events: seq<ChatEvent>, question: string, c: Context, answer: int)
    requires Answers(events, question, c, answer)
    ensures WellOrdered(events) && GoodNames(events) && DoneOnlyLast(events)
  {
    if IsReplied(question, c) {
      ReplyOrdered(events, c, answer);
    } else {
      assert events == [] || events == [INTERNAL_ERROR];
    }
  }

  /** What the client sees and what is stored agree for every question. */
  lemma AnswersAgree(events: seq<ChatEvent>, question: string, c: Context, answer: int, before: seq<Message>,
                     after: seq<Message>)
    requires Answers(events, question, c, answer) && Stores(before, after, question, c)
    ensures Agrees(events, question, c, before, after)
  {
    if c.fault == NoFault && Strip(question) != "" {
      ReplyShown(events, c, answer);
    }
  }

  class ChatService {
    var messages: seq<Message>

    constructor ()
      ensures messages == []
    {
      messages := [];
    }

    /** `ask_stream` inside `event_stream`: the events sent for a question, up to the first failure. */
    method AskStream(question: string, c: Context) returns (events: seq<ChatEvent>)
      modifies this
      ensures Answers(events, question, c, |messages| - 1)
      ensures Stores(old(messages), messages, question, c)
    {
      if c.fault == AtSession { return [INTERNAL_ERROR]; }
      var text := Strip(question);
      if text == "" { return []; }
      if c.fault == AtRetrieval { return [INTERNAL_ERROR]; }
      var head := [StreamEvent("sources", SourceList(c.sources))];
      if c.impact.Some? {
        head := head + [StreamEvent("graph", Impact(c.impact.value.0, c.impact.value.1))];
      }
      var tokens, last := Answer(text, c);
      events := head + tokens + [last];
      HeadAndTokens(head, tokens, last, c, |messages| - 1);
    }

    /** Storing the question, streaming the model's reply, and storing the answer. */
    method Answer(text: string, c: Context) returns (tokens: seq<ChatEvent>, last: ChatEvent)
      requires c.fault != AtSession && c.fault != AtRetrieval
      modifies this
      ensures IsEnd(last, c.fault, |messages| - 1)
      ensures tokens == Tokens(c.parts[..PartsSent(c)])
      ensures messages ==
        if c.fault == AtHistory || c.fault == AtQuestionInsert then old(messages)
        else if c.fault == NoFault || c.fault == AtSessionUpdate then
          old(messages) + [Message(User, text, [], None), Message(Assistant, Concat(c.parts), c.sources, c.impact)]
        else old(messages) + [Message(User, text, [], None)]
    {
      assert c.parts[..|c.parts|] == c.parts;
      tokens := [];
      assert tokens == Tokens(c.parts[..0]);
      if c.fault == AtHistory || c.fault == AtQuestionInsert { return tokens, INTERNAL_ERROR; }
      messages := messages + [Message(User, text, [], None)];
      var answerParts: seq<string> := [];
      for i := 0 to |c.parts|
        invariant answerParts == c.parts[..i] && tokens == Tokens(c.parts[..i])
        invariant messages == old(messages) + [Message(User, text, [], None)]
        invariant c.fault.AtModel? ==> i <= c.fault.parts
      {
        if c.fault == AtModel(i) { return tokens, LLM_ERROR; }
        answerParts := answerParts + [c.parts[i]];
        tokens := tokens + [StreamEvent("token", Delta(c.parts[i]))];
      }
      if c.fault.AtModel? { return tokens, LLM_ERROR; }
      if c.fault == AtAnswerInsert { return tokens, INTERNAL_ERROR; }
      messages := messages + [Message(Assistant, Concat(answerParts), c.sources, c.impact)];
      if c.fault == AtSessionUpdate { return tokens, INTERNAL_ERROR; }
      last := StreamEvent("done", Finished(|messages| - 1));
    }

    /** A whole exchange over a network that delivers the printed text in arbitrary pieces: the client receives
        exactly the events of the question, and what it has joined when it sees `done` is the answer in the store. */
    method Exchange(question: string, c: Context, json: Json<Payload>, network: string -> seq<string>)
        returns (received: seq<ChatEvent>)
      requires IsCodec(json) && forall text :: Concat(network(text)) == text
      modifies this
      ensures Answers(received, question, c, |messages| - 1) && WellOrdered(received)
      ensures Stores(old(messages), messages, question, c)
      ensures Agrees(received, question, c, old(messages), messages)
    {
      var events := AskStream(question, c);
      AnswersOrdered(events, question, c, |messages| - 1);
      AnswersAgree(events, question, c, |messages| - 1, old(messages), messages);
      received := Deliver(events, json, network);
    }

    /** The printed events, delivered in pieces and read by the client. */
    static method Deliver(events: seq<ChatEvent>, json: Json<Payload>, network: string -> seq<string>)
        returns (received: seq<ChatEvent>)
      requires IsCodec(json) && GoodNames(events) && forall text :: Concat(network(text)) == text
      ensures received == events
    {
      var text := PrintAll(json, events);
      received := ReadStream(json, network(text));
      RoundTrip(json, events, network(text));
    }
  }

  lemma ShownHead(head: seq<ChatEvent>)
    requires forall i :: 0 <= i < |head| ==> head[i].name != "token"
    ensures Shown(head) == ""
  {
    if head != [] {
      ShownHead(head[..|head| - 1]);
    }
  }

  lemma ShownAnswer(head: seq<ChatEvent>, parts: seq<string>, done: ChatEvent)
    requires Shown(head) == "" && done.name != "token"
    ensures Shown(head + Tokens(parts) + [done]) == Concat(parts)
  {
    ShownConcat(head + Tokens(parts), [done]);
    ShownConcat(head, Tokens(parts));
    ShownTokens(parts);
    ShownSilent(done);
  }
}
