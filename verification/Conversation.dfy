/**
  The conversation loop: up to ten requests to the model, whose streamed text goes to the
  client as it comes, whose replies are saved, and whose tool calls are answered before the
  next request. The model, the tools and the order of map iteration are arbitrary.
*/
module Conversation {
  import opened ToolCalls

  /** The finish reason of a chunk: the empty string, `tool_calls`, or any other. */
  datatype Finish = Going | ToolCallsFinish | OtherFinish(reason: string)

  datatype Chunk = Chunk(fragments: seq<Fragment>, content: string, finish: Finish)

  datatype Role = Assistant | Tool | OtherRole(name: string)

  /** Creating the stream fails, or it delivers chunks until it ends or breaks. */
  datatype Stream = CreateFailed | Delivers(chunks: seq<Chunk>)

  /** A message of the history that the model is sent. */
  datatype Message = Message(role: Role, content: string, toolCalls: seq<ToolCall>, toolCallId: string)

  /** A message of the history that is saved. */
  datatype SavedMessage = SavedMessage(role: Role, content: string)

  /** A frame sent to the client: a piece of the reply, or the failure to create a stream. */
  datatype Frame = Text(content: string) | StreamError

  /** The arguments do not parse, or the tool fails, or it returns a text. */
  datatype ToolOutcome = BadArguments(error: string) | ToolError(error: string) | ToolResult(text: string)

  datatype ToolUse = ToolUse(call: ToolCall, outcome: ToolOutcome)

  const MAX_ROUNDS := 10

  function AssistantText(content: string): Message {
    Message(Assistant, content, [], "")
  }

  // ----- What a stream delivers -----

  /** The chunks read: up to and including the first with a finish reason. */
  function Consumed(cs: seq<Chunk>): seq<Chunk> {
    if cs == [] then [] else if cs[0].finish != Going then [cs[0]] else [cs[0]] + Consumed(cs[1..])
  }

  function Fragments(cs: seq<Chunk>): seq<Fragment> {
    if cs == [] then [] else Fragments(cs[..|cs| - 1]) + cs[|cs| - 1].fragments
  }

  function Content(cs: seq<Chunk>): string {
    if cs == [] then "" else Content(cs[..|cs| - 1]) + cs[|cs| - 1].content
  }

  /** One frame for each chunk that carries text. */
  function TextFrames(cs: seq<Chunk>): seq<Frame> {
    if cs == [] then []
    else TextFrames(cs[..|cs| - 1]) + if cs[|cs| - 1].content != "" then [Text(cs[|cs| - 1].content)] else []
  }

  function FinishOf(cs: seq<Chunk>): Finish {
    if cs == [] then Going else cs[|cs| - 1].finish
  }

  /** No chunk before the n-th finished the stream. */
  predicate Unfinished(cs: seq<Chunk>, n: nat)
    requires n <= |cs|
  {
    forall j :: 0 <= j < n ==> cs[j].finish == Going
  }

  lemma {:induction false} ConsumedIsPrefix(cs: seq<Chunk>, i: nat)
    requires i <= |cs| && Unfinished(cs, i)
    ensures i == |cs| ==> Consumed(cs) == cs
    ensures i < |cs| && cs[i].finish != Going ==> Consumed(cs) == cs[..i + 1]
  {
    if i > 0 {
      ConsumedIsPrefix(cs[1..], i - 1);
      if i < |cs| {
        assert cs[1..][i - 1] == cs[i];
        assert [cs[0]] + cs[1..][..i] == cs[..i + 1];
      }
    }
  }

  lemma Assoc<T>(a: seq<T>, b: seq<T>, c: seq<T>)
    ensures (a + b) + c == a + (b + c)
  {
  }

  // ----- One round -----

  /** Calls without an ID or a name are dropped; empty arguments become an empty object. */
  function ValidCalls(calls: seq<ToolCall>): seq<ToolCall> {
    if calls == [] then []
    else
      var c := calls[|calls| - 1];
      ValidCalls(calls[..|calls| - 1]) +
      if c.id == "" || c.name == "" then [] else [if c.arguments == "" then c.(arguments := "{}") else c]
  }

  function ToolAnswer(use: ToolUse): Message {
    var content :=
      match use.outcome
      case BadArguments(error) => "Error parsing tool arguments: " + error
      case ToolError(error) => "Error calling tool " + use.call.name + ": " + error
      case ToolResult(text) => text;
    Message(Tool, content, [], use.call.id)
  }

  /**
    What came of one request: the stream, its text, the frames sent, its finish reason, its
    tool calls in the order they came out of the map, those asked for, what became of each,
    and their answers; and what it added to the model's history and to the saved one.
  */
  datatype Round = Round(
    stream: Stream, reply: string, frames: seq<Frame>, finish: Finish,
    calls: seq<ToolCall>, asked: seq<ToolCall>, uses: seq<ToolUse>, answers: seq<Message>,
    added: seq<Message>, kept: seq<SavedMessage>)

  /** The round reports its stream truly; its calls are those assembled, in some order. */
  ghost predicate Yields(r: Round) {
    match r.stream
    case CreateFailed =>
      r.reply == "" && r.finish == Going && r.calls == [] && r.frames == [StreamError]
    case Delivers(cs) =>
      var read := Consumed(cs);
      && r.reply == Content(read)
      && r.frames == TextFrames(read)
      && r.finish == FinishOf(read)
      && if r.finish == Going || r.finish == ToolCallsFinish then Lists(r.calls, Assembled(Fragments(read))) else r.calls == []
  }

  /** Each call is used once, in order, and answered with what became of it. */
  predicate Answers(asked: seq<ToolCall>, uses: seq<ToolUse>, answers: seq<Message>) {
    && |asked| == |uses| == |answers|
    && forall i :: 0 <= i < |asked| ==> uses[i].call == asked[i] && answers[i] == ToolAnswer(uses[i])
  }

  /** A round that finishes with the reason `tool_calls` keeps its text out of the model's history. */
  function PlainReply(r: Round): seq<Message> {
    if r.reply == "" || r.finish == ToolCallsFinish then [] else [AssistantText(r.reply)]
  }

  /** The assistant message that asks for the calls, and the answers. */
  function ToolMessages(asked: seq<ToolCall>, answers: seq<Message>): seq<Message> {
    if asked == [] then [] else [Message(Assistant, "", asked, "")] + answers
  }

  function SavedReply(r: Round): seq<SavedMessage> {
    if r.reply == "" then [] else [SavedMessage(Assistant, r.reply)]
  }

  predicate Adds(r: Round) {
    r.added == PlainReply(r) + ToolMessages(r.asked, r.answers) && r.kept == SavedReply(r)
  }

  ghost predicate Possible(r: Round) {
    && Yields(r)
    && r.asked == ValidCalls(r.calls)
    && Answers(r.asked, r.uses, r.answers)
    && Adds(r)
  }

  /** The round a stream and the tools make, when the stream is known. */
  lemma CompleteRound(r: Round, asked: seq<ToolCall>, uses: seq<ToolUse>, answers: seq<Message>) returns (done: Round)
    requires Yields(r) && asked == ValidCalls(r.calls) && Answers(asked, uses, answers)
    ensures done.uses == uses
    ensures Possible(done) && done.calls == r.calls && done.stream == r.stream && done.frames == r.frames
    ensures done.added == PlainReply(r) + ToolMessages(asked, answers) && done.kept == SavedReply(r)
  {
    done := r.(asked := asked, uses := uses, answers := answers,
               added := PlainReply(r) + ToolMessages(asked, answers), kept := SavedReply(r));
  }

  /** What the model was sent, and its answer. */
  datatype Request = Request(messages: seq<Message>, answer: Stream)

  /** Both histories, everything sent to the client, every request made, and every use of a tool. */
  datatype Talk = Talk(
    messages: seq<Message>, saved: seq<SavedMessage>, frames: seq<Frame>, requests: seq<Request>, uses: seq<ToolUse>)

  function AfterRound(r: Round, t: Talk): Talk {
    Talk(t.messages + r.added, t.saved + r.kept, t.frames + r.frames, t.requests + [Request(t.messages, r.stream)], t.uses + r.uses)
  }

  /** After the first n rounds. */
  function AfterRounds(rs: seq<Round>, n: nat, t: Talk): Talk
    requires n <= |rs|
  {
    if n == 0 then t else AfterRound(rs[n - 1], AfterRounds(rs, n - 1, t))
  }

  lemma {:induction false} AfterRoundsAppend(rs: seq<Round>, r: Round, n: nat, t: Talk)
    requires n <= |rs|
    ensures AfterRounds(rs + [r], n, t) == AfterRounds(rs, n, t)
  {
    if n > 0 {
      AfterRoundsAppend(rs, r, n - 1, t);
    }
  }

  /** The first n rounds are possible and asked for tools. */
  ghost predicate Asking(rs: seq<Round>, n: nat)
    requires n <= |rs|
  {
    forall i :: 0 <= i < n ==> Possible(rs[i]) && rs[i].calls != []
  }

  /** The rounds of a run: each but the last asked for tools, and the last did not or was the tenth. */
  ghost predicate Run(rs: seq<Round>) {
    && 1 <= |rs| <= MAX_ROUNDS
    && Asking(rs, |rs| - 1)
    && Possible(rs[|rs| - 1])
    && (|rs| < MAX_ROUNDS ==> rs[|rs| - 1].calls == [])
  }

  /** The state of the loop before a round: the talk so far, in which every round asked for tools. */
  ghost predicate Reached(rs: seq<Round>, start: Talk, now: Talk) {
    |rs| <= MAX_ROUNDS && Asking(rs, |rs|) && now == AfterRounds(rs, |rs|, start)
  }

  /** One more round reaches the next talk; it ends the run if it asked for nothing or was the tenth. */
  lemma ReachedNext(rs: seq<Round>, r: Round, start: Talk, now: Talk)
    requires |rs| < MAX_ROUNDS && Reached(rs, start, now) && Possible(r)
    ensures AfterRounds(rs + [r], |rs| + 1, start) == AfterRound(r, now)
    ensures r.calls != [] ==> Reached(rs + [r], start, AfterRound(r, now))
    ensures r.calls == [] || |rs| + 1 == MAX_ROUNDS ==> Run(rs + [r])
  {
    hide Possible;
    var all := rs + [r];
    AfterRoundsAppend(rs, r, |rs|, start);
    assert all[|rs|] == r && forall i :: 0 <= i < |rs| ==> all[i] == rs[i];
  }

  /** From the given one on, each request was answered as the model answers it. */
  predicate AnsweredBy(reply: (nat, seq<Message>) -> Stream, requests: seq<Request>, from: nat) {
    forall n :: from <= n < |requests| ==> requests[n].answer == reply(n, requests[n].messages)
  }

  /** From the given one on, each use of a tool came out as the tools let it. */
  predicate UsedBy(outcomeOf: (nat, ToolCall) -> ToolOutcome, uses: seq<ToolUse>, from: nat) {
    forall n :: from <= n < |uses| ==> uses[n].outcome == outcomeOf(n, uses[n].call)
  }

  lemma UnusedYet(outcomeOf: (nat, ToolCall) -> ToolOutcome, uses: seq<ToolUse>)
    ensures UsedBy(outcomeOf, uses, |uses|)
  {
  }

  lemma UsedByConcat(outcomeOf: (nat, ToolCall) -> ToolOutcome, a: seq<ToolUse>, b: seq<ToolUse>, from: nat)
    requires from <= |a| && UsedBy(outcomeOf, a, from) && UsedBy(outcomeOf, a + b, |a|)
    ensures UsedBy(outcomeOf, a + b, from)
  {
    assert forall n :: from <= n < |a| ==> (a + b)[n] == a[n];
  }

  // ----- The program -----

  class ResponseWriter {
    var frames: seq<Frame>

    method Send(f: Frame)
      modifies this
      ensures frames == old(frames) + [f]
    {
      frames := frames + [f];
    }
  }

  /**
    The model's side: how it answers its n-th request, which may be anything, and every request
    it received, with the stream that answered it.
  */
  class Client {
    const reply: (nat, seq<Message>) -> Stream
    var requests: seq<Request>

    constructor (reply: (nat, seq<Message>) -> Stream)
      ensures this.reply == reply && requests == []
    {
      this.reply, requests := reply, [];
    }

    method CreateStream(messages: seq<Message>) returns (s: Stream)
      modifies this`requests
      ensures s == reply(|old(requests)|, messages)
      ensures requests == old(requests) + [Request(messages, s)]
    {
      s := reply(|requests|, messages);
      requests := requests + [Request(messages, s)];
    }
  }

  /** The tools' side: what comes of the n-th use, which may be anything, and every use attempted. */
  class Tools {
    const outcomeOf: (nat, ToolCall) -> ToolOutcome
    var uses: seq<ToolUse>

    constructor (outcomeOf: (nat, ToolCall) -> ToolOutcome)
      ensures this.outcomeOf == outcomeOf && uses == []
    {
      this.outcomeOf, uses := outcomeOf, [];
    }

    /** Parses the arguments and runs the tool; either may fail. */
    method Use(call: ToolCall) returns (outcome: ToolOutcome)
      modifies this`uses
      ensures outcome == outcomeOf(|old(uses)|, call)
      ensures uses == old(uses) + [ToolUse(call, outcome)]
    {
      outcome := outcomeOf(|uses|, call);
      uses := uses + [ToolUse(call, outcome)];
    }
  }

  class ConversationContext {
    var messages: seq<SavedMessage>

    method GetOpenAIMessages() returns (ms: seq<Message>)
      ensures |ms| == |messages|
      ensures forall i :: 0 <= i < |ms| ==> ms[i] == Message(messages[i].role, messages[i].content, [], "")
    {
      ms := [];
      for i := 0 to |messages|
        invariant |ms| == i
        invariant forall j :: 0 <= j < i ==> ms[j] == Message(messages[j].role, messages[j].content, [], "")
      {
        ms := ms + [Message(messages[i].role, messages[i].content, [], "")];
      }
    }
  }

  /** Adds the fragments of one chunk to the calls assembled so far. */
  method CollectFragments(m: map<int, ToolCall>, ghost before: seq<Fragment>, fragments: seq<Fragment>)
    returns (calls: map<int, ToolCall>)
    requires m == Assembled(before)
    ensures calls == Assembled(before + fragments)
  {
    calls := m;
    assert before + fragments[..0] == before;
    for j := 0 to |fragments|
      invariant calls == Assembled(before + fragments[..j])
    {
      var f := fragments[j];
      ghost var seen := before + fragments[..j];
      if f.index !in calls {
        calls := calls[f.index := ToolCall(f.id, f.kind, f.name, f.arguments)];
      } else {
        var c := calls[f.index];
        assert c.arguments + "" == c.arguments;
        if f.arguments != "" {
          c := c.(arguments := c.arguments + f.arguments);
        }
        if f.name != "" {
          c := c.(name := f.name);
        }
        calls := calls[f.index := c];
      }
      assert calls == Merged(Assembled(seen), f);
      assert (seen + [f])[..|seen|] == seen;
      assert before + fragments[..j + 1] == seen + [f];
    }
    assert fragments[..|fragments|] == fragments;
  }

  /** What has been gathered from the first chunks of a stream, none of which finished it. */
  ghost predicate Gathered(cs: seq<Chunk>, n: nat, content: string, calls: map<int, ToolCall>)
    requires n <= |cs|
  {
    content == Content(cs[..n]) && calls == Assembled(Fragments(cs[..n]))
  }

  /** Takes in one chunk and passes its text on. */
  method TakeChunk(w: ResponseWriter, cs: seq<Chunk>, n: nat, content: string, calls: map<int, ToolCall>, ghost sent: seq<Frame>)
    returns (newContent: string, newCalls: map<int, ToolCall>)
    requires n < |cs| && Gathered(cs, n, content, calls)
    requires w.frames == sent + TextFrames(cs[..n])
    modifies w
    ensures Gathered(cs, n + 1, newContent, newCalls)
    ensures w.frames == sent + TextFrames(cs[..n + 1])
  {
    assert cs[..n + 1][..n] == cs[..n];
    newCalls := CollectFragments(calls, Fragments(cs[..n]), cs[n].fragments);
    newContent := content;
    assert content + "" == content;
    if cs[n].content != "" {
      newContent := newContent + cs[n].content;
      w.Send(Text(cs[n].content));
    }
  }

  /** Reads the stream until a finish reason or its end. */
  method ReadStream(w: ResponseWriter, cs: seq<Chunk>)
    returns (content: string, calls: map<int, ToolCall>, finish: Finish)
    modifies w
    ensures content == Content(Consumed(cs))
    ensures calls == Assembled(Fragments(Consumed(cs)))
    ensures finish == FinishOf(Consumed(cs))
    ensures w.frames == old(w.frames) + TextFrames(Consumed(cs))
  {
    content, calls := "", map[];
    var i := 0;
    assert cs[..0] == [];
    while i < |cs|
      invariant 0 <= i <= |cs| && Unfinished(cs, i) && Gathered(cs, i, content, calls)
      invariant w.frames == old(w.frames) + TextFrames(cs[..i])
    {
      content, calls := TakeChunk(w, cs, i, content, calls, old(w.frames));
      if cs[i].finish != Going {
        ConsumedIsPrefix(cs, i);
        return content, calls, cs[i].finish;
      }
      i := i + 1;
    }
    ConsumedIsPrefix(cs, i);
    assert cs[..i] == cs;
    return content, calls, Going;
  }

  method ProcessAIStream(w: ResponseWriter, client: Client, messages: seq<Message>)
    returns (toolCalls: seq<ToolCall>, newMessages: seq<Message>, finished: bool, aiResponse: string, ghost r: Round)
    modifies w, client
    ensures r.stream == client.reply(|old(client.requests)|, messages)
    ensures client.requests == old(client.requests) + [Request(messages, r.stream)]
    ensures Yields(r)
    ensures toolCalls == r.calls && aiResponse == r.reply
    ensures newMessages == messages + PlainReply(r)
    ensures w.frames == old(w.frames) + r.frames
    ensures finished ==> toolCalls == []
  {
    var stream := client.CreateStream(messages);
    if stream.CreateFailed? {
      w.Send(StreamError);
      return [], messages, true, "", Round(stream, "", [StreamError], Going, [], [], [], [], [], []);
    }
    var content, callsMap, finish := ReadStream(w, stream.chunks);
    ghost var frames := TextFrames(Consumed(stream.chunks));
    toolCalls, newMessages, aiResponse := [], messages, content;
    if finish == ToolCallsFinish {
      toolCalls := Values(callsMap);
      return toolCalls, messages, false, content, Round(stream, content, frames, finish, toolCalls, [], [], [], [], []);
    }
    if content != "" {
      newMessages := newMessages + [AssistantText(content)];
    }
    if finish == Going {
      toolCalls := Values(callsMap);
    }
    r := Round(stream, content, frames, finish, toolCalls, [], [], [], [], []);
    finished := toolCalls == [];
  }

  method KeepValid(toolCalls: seq<ToolCall>) returns (valid: seq<ToolCall>)
    ensures valid == ValidCalls(toolCalls)
  {
    valid := [];
    for i := 0 to |toolCalls|
      invariant valid == ValidCalls(toolCalls[..i])
    {
      assert toolCalls[..i + 1][..i] == toolCalls[..i];
      var call := toolCalls[i];
      if call.id == "" || call.name == "" {
        assert valid + [] == valid;
        continue;
      }
      if call.arguments == "" {
        call := call.(arguments := "{}");
      }
      valid := valid + [call];
    }
    assert toolCalls[..|toolCalls|] == toolCalls;
  }

  /** The tool message that answers a call. */
  method AnswerCall(tools: Tools, call: ToolCall) returns (m: Message, ghost use: ToolUse)
    modifies tools
    ensures use.call == call && use.outcome == tools.outcomeOf(|old(tools.uses)|, call)
    ensures tools.uses == old(tools.uses) + [use]
    ensures m == ToolAnswer(use)
    ensures m.role == Tool && m.toolCalls == [] && m.toolCallId == call.id
    ensures use.outcome.BadArguments? ==> m.content == "Error parsing tool arguments: " + use.outcome.error
    ensures use.outcome.ToolError? ==> m.content == "Error calling tool " + call.name + ": " + use.outcome.error
    ensures use.outcome.ToolResult? ==> m.content == use.outcome.text
  {
    var outcome := tools.Use(call);
    use := ToolUse(call, outcome);
    match outcome {
      case BadArguments(error) => m := Message(Tool, "Error parsing tool arguments: " + error, [], call.id);
      case ToolError(error) => m := Message(Tool, "Error calling tool " + call.name + ": " + error, [], call.id);
      case ToolResult(text) => m := Message(Tool, text, [], call.id);
    }
  }

  lemma NoCalls()
    ensures ValidCalls([]) == [] && Answers([], [], []) && ToolMessages([], []) == []
  {
  }

  lemma AnswersNext(asked: seq<ToolCall>, uses: seq<ToolUse>, answers: seq<Message>, use: ToolUse)
    requires Answers(asked, uses, answers)
    ensures Answers(asked + [use.call], uses + [use], answers + [ToolAnswer(use)])
  {
  }

  method ExecuteToolCalls(tools: Tools, toolCalls: seq<ToolCall>, messages: seq<Message>)
    returns (newMessages: seq<Message>, ghost asked: seq<ToolCall>, ghost uses: seq<ToolUse>, ghost answers: seq<Message>)
    modifies tools
    ensures asked == ValidCalls(toolCalls) && Answers(asked, uses, answers)
    ensures tools.uses == old(tools.uses) + uses
    ensures UsedBy(tools.outcomeOf, tools.uses, |old(tools.uses)|)
    ensures newMessages == messages + ToolMessages(asked, answers)
  {
    hide Answers, ToolAnswer;
    NoCalls();
    assert messages + [] == messages;
    var valid := KeepValid(toolCalls);
    asked, uses, answers := valid, [], [];
    assert tools.uses + [] == tools.uses;
    if valid == [] {
      return messages, asked, uses, answers;
    }
    newMessages := messages + [Message(Assistant, "", valid, "")];
    ghost var start := newMessages;
    for i := 0 to |valid|
      invariant Answers(valid[..i], uses, answers)
      invariant newMessages == start + answers && tools.uses == old(tools.uses) + uses && |uses| == i
      invariant UsedBy(tools.outcomeOf, tools.uses, |old(tools.uses)|)
    {
      var answer;
      ghost var use;
      answer, use := AnswerCall(tools, valid[i]);
      AnswersNext(valid[..i], uses, answers, use);
      assert valid[..i + 1] == valid[..i] + [use.call];
      newMessages := newMessages + [answer];
      uses, answers := uses + [use], answers + [answer];
    }
    assert valid[..|valid|] == valid;
  }

  /** One request, its reply, and the answers to its tool calls; `more` says that it had some. */
  method ConverseOnce(w: ResponseWriter, client: Client, tools: Tools, conv: ConversationContext, messages: seq<Message>)
    returns (newMessages: seq<Message>, more: bool, ghost r: Round)
    modifies w, client, tools, conv
    ensures Possible(r)
    ensures more <==> r.calls != []
    ensures newMessages == messages + r.added
    ensures conv.messages == old(conv.messages) + r.kept
    ensures w.frames == old(w.frames) + r.frames
    ensures client.requests == old(client.requests) + [Request(messages, r.stream)]
    ensures tools.uses == old(tools.uses) + r.uses
    ensures r.stream == client.reply(|old(client.requests)|, messages)
    ensures UsedBy(tools.outcomeOf, tools.uses, |old(tools.uses)|)
  {
    hide Yields, Answers, ToolMessages, PlainReply, ValidCalls;
    NoCalls();
    var toolCalls, finished, aiResponse;
    toolCalls, newMessages, finished, aiResponse, r := ProcessAIStream(w, client, messages);
    if aiResponse != "" {
      conv.messages := conv.messages + [SavedMessage(Assistant, aiResponse)];
    }
    ghost var asked, uses, answers := [], [], [];
    more := !finished && toolCalls != [];
    assert tools.uses + [] == tools.uses;
    if more {
      newMessages, asked, uses, answers := ExecuteToolCalls(tools, toolCalls, newMessages);
    }
    assert newMessages == messages + PlainReply(r) + ToolMessages(asked, answers);
    Assoc(messages, PlainReply(r), ToolMessages(asked, answers));
    r := CompleteRound(r, asked, uses, answers);
  }

  /** The loop: at most ten requests, the last of which may still be answered with tool calls. */
  method HandleAIConversation(w: ResponseWriter, client: Client, tools: Tools, conv: ConversationContext)
    returns (ghost rs: seq<Round>, ghost start: Talk)
    modifies w, client, tools, conv
    ensures start.saved == old(conv.messages) && start.frames == old(w.frames)
    ensures start.requests == old(client.requests) && start.uses == old(tools.uses)
    ensures |start.messages| == |start.saved|
    ensures forall i :: 0 <= i < |start.saved| ==>
              start.messages[i] == Message(start.saved[i].role, start.saved[i].content, [], "")
    ensures Run(rs)
    ensures var end := AfterRounds(rs, |rs|, start);
            conv.messages == end.saved && w.frames == end.frames && client.requests == end.requests && tools.uses == end.uses
    ensures AnsweredBy(client.reply, client.requests, |start.requests|)
    ensures UsedBy(tools.outcomeOf, tools.uses, |start.uses|)
  {
    hide Possible, UsedBy;
    var messages := conv.GetOpenAIMessages();
    rs := [];
    UnusedYet(tools.outcomeOf, tools.uses);
    start := Talk(messages, conv.messages, w.frames, client.requests, tools.uses);
    for round := 0 to MAX_ROUNDS
      invariant |rs| == round && Reached(rs, start, Talk(messages, conv.messages, w.frames, client.requests, tools.uses))
      invariant round == MAX_ROUNDS ==> Run(rs)
      invariant |start.requests| <= |client.requests| && AnsweredBy(client.reply, client.requests, |start.requests|)
      invariant |start.uses| <= |tools.uses| && UsedBy(tools.outcomeOf, tools.uses, |start.uses|)
    {
      ghost var now := Talk(messages, conv.messages, w.frames, client.requests, tools.uses);
      var more;
      ghost var r;
      messages, more, r := ConverseOnce(w, client, tools, conv, messages);
      UsedByConcat(tools.outcomeOf, now.uses, r.uses, |start.uses|);
      ReachedNext(rs, r, start, now);
      rs := rs + [r];
      if !more {
        return;
      }
    }
  }
}
