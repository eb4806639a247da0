/**
  What holds of every run of the conversation loop: the protocol of the history sent to the
  model, and how the two histories and the client's stream relate.
*/
module ConversationLaws {
  import opened ToolCalls
  import opened Conversation

  /** What the first n rounds add to the model's history. */
  function ModelTail(rs: seq<Round>, n: nat): seq<Message>
    requires n <= |rs|
  {
    if n == 0 then [] else ModelTail(rs, n - 1) + rs[n - 1].added
  }

  /** What they add to the saved history. */
  function SavedTail(rs: seq<Round>, n: nat): seq<SavedMessage>
    requires n <= |rs|
  {
    if n == 0 then [] else SavedTail(rs, n - 1) + rs[n - 1].kept
  }

  /** What they send to the client. */
  function FrameTail(rs: seq<Round>, n: nat): seq<Frame>
    requires n <= |rs|
  {
    if n == 0 then [] else FrameTail(rs, n - 1) + rs[n - 1].frames
  }

  /** What they use the tools for. */
  function UseTail(rs: seq<Round>, n: nat): seq<ToolUse>
    requires n <= |rs|
  {
    if n == 0 then [] else UseTail(rs, n - 1) + rs[n - 1].uses
  }

  /** Every run only adds to both histories, to the client's stream and to the uses of the tools. */
  lemma {:induction false} RunsOnlyAdd(rs: seq<Round>, n: nat, t: Talk)
    requires n <= |rs|
    ensures var end := AfterRounds(rs, n, t);
            && end.messages == t.messages + ModelTail(rs, n)
            && end.saved == t.saved + SavedTail(rs, n)
            && end.frames == t.frames + FrameTail(rs, n)
            && end.uses == t.uses + UseTail(rs, n)
  {
    if n > 0 {
      var r := rs[n - 1];
      RunsOnlyAdd(rs, n - 1, t);
      Assoc(t.messages, ModelTail(rs, n - 1), r.added);
      Assoc(t.saved, SavedTail(rs, n - 1), r.kept);
      Assoc(t.frames, FrameTail(rs, n - 1), r.frames);
      Assoc(t.uses, UseTail(rs, n - 1), r.uses);
    }
  }

  /** The i-th request is the first history with what the rounds before it added. */
  lemma {:induction false} RequestIs(rs: seq<Round>, n: nat, t: Talk, i: nat)
    requires i < n <= |rs|
    ensures |AfterRounds(rs, n, t).requests| == |t.requests| + n
    ensures AfterRounds(rs, n, t).requests[|t.requests| + i] == Request(t.messages + ModelTail(rs, i), rs[i].stream)
  {
    RunsOnlyAdd(rs, n - 1, t);
    RequestCount(rs, n - 1, t);
    if i < n - 1 {
      RequestIs(rs, n - 1, t, i);
    }
  }

  lemma {:induction false} RequestCount(rs: seq<Round>, n: nat, t: Talk)
    requires n <= |rs|
    ensures |AfterRounds(rs, n, t).requests| == |t.requests| + n
  {
    if n > 0 {
      RequestCount(rs, n - 1, t);
    }
  }

  lemma {:induction false} TailsGrow(rs: seq<Round>, i: nat, j: nat)
    requires i <= j <= |rs|
    ensures ModelTail(rs, i) <= ModelTail(rs, j)
  {
    if i < j {
      TailsGrow(rs, i, j - 1);
    }
  }

  /**
    A run makes at most ten requests, each extending the one before; every request but the
    last was answered by tool calls and without a terminal finish.
  */
  lemma RequestsExtend(rs: seq<Round>, t: Talk, i: nat, j: nat)
    requires Run(rs) && i < j < |rs|
    ensures var end, n := AfterRounds(rs, |rs|, t), |t.requests|;
            && |end.requests| == n + |rs| <= n + 10
            && t.messages <= end.requests[n + i].messages <= end.requests[n + j].messages
            && rs[i].calls != [] && (rs[i].finish == Going || rs[i].finish == ToolCallsFinish)
  {
    hide Possible;
    RequestIs(rs, |rs|, t, i);
    RequestIs(rs, |rs|, t, j);
    TailsGrow(rs, i, j);
    AskingRound(rs, |rs| - 1, i);
  }

  lemma AskingRound(rs: seq<Round>, n: nat, i: nat)
    requires i < n <= |rs| && Asking(rs, n)
    ensures rs[i].calls != [] && (rs[i].finish == Going || rs[i].finish == ToolCallsFinish)
  {
    assert Possible(rs[i]);
  }

  // ----- One round, in terms of its chunks -----

  /** A stream is read up to and including its first chunk with a finish reason, or to its end. */
  lemma {:induction false} ConsumedIs(cs: seq<Chunk>)
    ensures var n := |Consumed(cs)|;
            && n <= |cs| && Consumed(cs) == cs[..n]
            && (forall i :: 0 <= i < n - 1 ==> cs[i].finish == Going)
            && (n < |cs| ==> n > 0 && cs[n - 1].finish != Going)
  {
    if cs != [] && cs[0].finish == Going {
      ConsumedIs(cs[1..]);
      var n := |Consumed(cs[1..])|;
      assert cs[..n + 1] == [cs[0]] + cs[1..][..n];
      forall i | 0 <= i < n
        ensures cs[i].finish == Going
      {
        assert i > 0 ==> cs[i] == cs[1..][i - 1];
      }
    }
  }

  /** Each chunk read adds all its fragments, all its text, and one frame if it has text. */
  lemma ChunkAdds(cs: seq<Chunk>, c: Chunk)
    ensures Fragments([]) == [] && Fragments(cs + [c]) == Fragments(cs) + c.fragments
    ensures Content([]) == "" && Content(cs + [c]) == Content(cs) + c.content
    ensures TextFrames([]) == []
    ensures TextFrames(cs + [c]) == if c.content == "" then TextFrames(cs) else TextFrames(cs) + [Text(c.content)]
  {
    assert (cs + [c])[..|cs|] == cs;
    assert TextFrames(cs) + [] == TextFrames(cs);
  }

  /** A stream that cannot be created adds one error frame and nothing else. */
  lemma FailedStreamAdds(r: Round)
    requires Possible(r) && r.stream == CreateFailed
    ensures r.frames == [StreamError] && r.added == [] && r.kept == [] && r.uses == [] && r.calls == []
  {
  }

  /**
    A delivered stream saves its text, if there is some, as a message of the assistant, and
    sends it to the model likewise unless it ended with `tool_calls`; then come the calls
    asked for, in one message, and their answers.
  */
  lemma DeliveredStreamAdds(r: Round)
    requires Possible(r) && r.stream.Delivers?
    ensures var read := Consumed(r.stream.chunks);
            var text, byCalls := Content(read), read != [] && read[|read| - 1].finish == ToolCallsFinish;
            && r.frames == TextFrames(read)
            && r.kept == (if text == "" then [] else [SavedMessage(Assistant, text)])
            && r.added == (if text == "" || byCalls then [] else [Message(Assistant, text, [], "")]) +
                          (if r.asked == [] then [] else [Message(Assistant, "", r.asked, "")] + r.answers)
  {
  }

  /** The i-th answer carries what the i-th tool returned, or the parse error or tool error with its prefix. */
  lemma AnswersSay(r: Round, i: nat)
    requires Possible(r) && i < |r.asked|
    ensures |r.uses| == |r.answers| == |r.asked| && r.uses[i].call == r.asked[i]
    ensures var content := match r.uses[i].outcome
                           case BadArguments(error) => "Error parsing tool arguments: " + error
                           case ToolError(error) => "Error calling tool " + r.asked[i].name + ": " + error
                           case ToolResult(text) => text;
            r.answers[i] == Message(Tool, content, [], r.asked[i].id)
  {
  }

  /** There is another request iff this one's stream carries tool calls, ended with `tool_calls` or without a reason, and was not the tenth. */
  lemma NextRequestIff(rs: seq<Round>, i: nat)
    requires Run(rs) && i < |rs|
    ensures |rs| <= 10
    ensures i + 1 < |rs| <==>
            && i + 1 < 10
            && rs[i].stream.Delivers?
            && var read := Consumed(rs[i].stream.chunks);
            && (read == [] || read[|read| - 1].finish == Going || read[|read| - 1].finish == ToolCallsFinish)
            && Assembled(Fragments(read)) != map[]
  {
    RunIsPossible(rs, i);
    CallsIff(rs[i]);
    hide Possible;
    if i + 1 < |rs| {
      assert rs[i].calls != [];
    }
  }

  lemma CallsIff(r: Round)
    requires Possible(r)
    ensures r.calls != [] <==>
            && r.stream.Delivers?
            && var read := Consumed(r.stream.chunks);
            && (read == [] || read[|read| - 1].finish == Going || read[|read| - 1].finish == ToolCallsFinish)
            && Assembled(Fragments(read)) != map[]
  {
    if r.stream.Delivers? && Lists(r.calls, Assembled(Fragments(Consumed(r.stream.chunks)))) {
      ListsCount(r.calls, Assembled(Fragments(Consumed(r.stream.chunks))));
    }
  }

  // ----- The protocol of the model's history -----

  predicate WellFormedCalls(calls: seq<ToolCall>) {
    forall i :: 0 <= i < |calls| ==> calls[i].id != "" && calls[i].name != "" && calls[i].arguments != ""
  }

  /** A message that the assistant may send: a text, or calls. */
  predicate Speaks(m: Message) {
    m.role == Assistant && (m.toolCalls == [] ==> m.content != "") && WellFormedCalls(m.toolCalls)
  }

  /** The message's calls are answered at once: one tool message for each, in order, under its ID. */
  predicate AnsweredAt(ms: seq<Message>, i: nat)
    requires i < |ms|
  {
    var calls := ms[i].toolCalls;
    && i + |calls| < |ms|
    && forall x :: i < x <= i + |calls| ==>
         ms[x].role == Tool && ms[x].toolCalls == [] && ms[x].toolCallId == calls[x - i - 1].id
  }

  /** From a position on: assistant messages, each followed by the answers to its calls, and no others. */
  predicate ProtocolFrom(ms: seq<Message>, i: nat)
    decreases |ms| - i
  {
    || i == |ms|
    || (i < |ms| && Speaks(ms[i]) && AnsweredAt(ms, i) && ProtocolFrom(ms, i + |ms[i].toolCalls| + 1))
  }

  predicate Protocol(ms: seq<Message>) {
    ProtocolFrom(ms, 0)
  }

  lemma {:induction false} ProtocolAfter(a: seq<Message>, b: seq<Message>, j: nat)
    requires ProtocolFrom(b, j)
    ensures ProtocolFrom(a + b, |a| + j)
    decreases |b| - j
  {
    if j < |b| {
      ProtocolAfter(a, b, j + |b[j].toolCalls| + 1);
      assert forall x :: |a| + j <= x < |a| + |b| ==> (a + b)[x] == b[x - |a|];
    }
  }

  lemma {:induction false} ProtocolBefore(a: seq<Message>, b: seq<Message>, i: nat)
    requires ProtocolFrom(a, i) && Protocol(b)
    ensures ProtocolFrom(a + b, i)
    decreases |a| - i
  {
    if i == |a| {
      ProtocolAfter(a, b, 0);
    } else {
      ProtocolBefore(a, b, i + |a[i].toolCalls| + 1);
      assert forall x :: 0 <= x < |a| ==> (a + b)[x] == a[x];
    }
  }

  lemma {:induction false} ValidCallsWellFormed(calls: seq<ToolCall>)
    ensures WellFormedCalls(ValidCalls(calls))
  {
    if calls != [] {
      ValidCallsWellFormed(calls[..|calls| - 1]);
    }
  }

  lemma AnswersFit(r: Round, i: nat)
    requires Possible(r) && i < |r.asked|
    ensures |r.answers| == |r.asked|
    ensures r.answers[i].role == Tool && r.answers[i].toolCalls == [] && r.answers[i].toolCallId == r.asked[i].id
  {
    assert r.answers[i] == ToolAnswer(r.uses[i]);
  }

  lemma ToolMessagesFollowProtocol(r: Round)
    requires Possible(r)
    ensures Protocol(ToolMessages(r.asked, r.answers))
  {
    var ms := ToolMessages(r.asked, r.answers);
    ValidCallsWellFormed(r.calls);
    if r.asked != [] {
      forall x | 0 < x <= |r.asked|
        ensures ms[x].role == Tool && ms[x].toolCalls == [] && ms[x].toolCallId == r.asked[x - 1].id
      {
        AnswersFit(r, x - 1);
      }
      assert AnsweredAt(ms, 0) && ProtocolFrom(ms, |r.asked| + 1);
    }
  }

  lemma PlainReplyFollowsProtocol(r: Round)
    ensures Protocol(PlainReply(r))
  {
    var ms := PlainReply(r);
    if ms != [] {
      assert Speaks(ms[0]) && AnsweredAt(ms, 0) && ProtocolFrom(ms, 1);
    }
  }

  lemma PossibleAdds(r: Round)
    requires Possible(r)
    ensures Adds(r)
  {
  }

  lemma RoundFollowsProtocol(r: Round)
    requires Possible(r)
    ensures Protocol(r.added)
  {
    hide Possible, ProtocolFrom, PlainReply, ToolMessages;
    PossibleAdds(r);
    ToolMessagesFollowProtocol(r);
    PlainReplyFollowsProtocol(r);
    ProtocolBefore(PlainReply(r), ToolMessages(r.asked, r.answers), 0);
  }

  lemma RunIsPossible(rs: seq<Round>, i: nat)
    requires Run(rs) && i < |rs|
    ensures Possible(rs[i])
  {
    hide Possible;
  }

  /** What the rounds of a run add to the model's history follows the protocol. */
  lemma {:induction false} TailFollowsProtocol(rs: seq<Round>, n: nat)
    requires Run(rs) && n <= |rs|
    ensures Protocol(ModelTail(rs, n))
  {
    hide Possible;
    if n > 0 {
      TailFollowsProtocol(rs, n - 1);
      RunIsPossible(rs, n - 1);
      RoundFollowsProtocol(rs[n - 1]);
      ProtocolBefore(ModelTail(rs, n - 1), rs[n - 1].added, 0);
    }
  }

  /** A tool message answers a call of the assistant message that its answers follow. */
  ghost predicate Asked(ms: seq<Message>, i: nat)
    requires i < |ms|
  {
    ms[i].role == Tool ==>
      exists a :: 0 <= a < i && i - a - 1 < |ms[a].toolCalls| && ms[i].toolCallId == ms[a].toolCalls[i - a - 1].id
  }

  lemma {:induction false} ProtocolAt(ms: seq<Message>, start: nat, i: nat)
    requires ProtocolFrom(ms, start) && start <= i < |ms|
    ensures AnsweredAt(ms, i) && Asked(ms, i)
    decreases |ms| - start
  {
    var next := start + |ms[start].toolCalls| + 1;
    if i >= next {
      ProtocolAt(ms, next, i);
    } else if i > start {
      assert ms[i].toolCallId == ms[start].toolCalls[i - start - 1].id;
    }
  }

  /**
    In every request of a run, after the first history, each assistant message with tool calls
    is immediately followed by exactly one tool message per call, in order and under its ID,
    and each tool message answers such a call.
  */
  lemma RequestsFollowProtocol(rs: seq<Round>, t: Talk, n: nat, i: nat)
    requires n < |rs| && Run(rs)
    ensures |AfterRounds(rs, |rs|, t).requests| == |t.requests| + |rs|
    ensures var sent := AfterRounds(rs, |rs|, t).requests[|t.requests| + n].messages;
            && t.messages <= sent
            && var added := sent[|t.messages|..];
            Protocol(added) && (i < |added| ==> AnsweredAt(added, i) && Asked(added, i))
  {
    RequestIs(rs, |rs|, t, n);
    TailFollowsProtocol(rs, n);
    var added := ModelTail(rs, n);
    assert (t.messages + added)[|t.messages|..] == added;
    if i < |added| {
      ProtocolAt(added, 0, i);
    }
  }

  /** Assembled under this index, with an ID and a name, and sent on as the given call. */
  predicate SentAs(m: map<int, ToolCall>, index: int, c: ToolCall) {
    && index in m && m[index].id != "" && m[index].name != ""
    && c == if m[index].arguments == "" then m[index].(arguments := "{}") else m[index]
  }

  lemma {:induction false} ListedCallsAre(calls: seq<ToolCall>, m: map<int, ToolCall>, c: ToolCall)
    requires Lists(calls, m)
    ensures c in ValidCalls(calls) <==> exists index :: SentAs(m, index, c)
    decreases |calls|
  {
    if calls != [] {
      var front := calls[..|calls| - 1];
      var key :| key in m && m[key] == calls[|calls| - 1] && Lists(front, m - {key});
      var rest := m - {key};
      ListedCallsAre(front, rest, c);
      assert forall index :: SentAs(m, index, c) <==> SentAs(rest, index, c) || (index == key && SentAs(m, key, c));
      assert c in ValidCalls(calls) <==> c in ValidCalls(front) || SentAs(m, key, c);
    }
  }

  /** The calls sent on, in order, are those at these indices of the map, each once and none forgotten. */
  ghost predicate SentInOrder(m: map<int, ToolCall>, sent: seq<ToolCall>, order: seq<int>) {
    && |order| == |sent|
    && (forall i, j :: 0 <= i < j < |order| ==> order[i] != order[j])
    && (forall i :: 0 <= i < |order| ==> SentAs(m, order[i], sent[i]))
    && forall index :: index in m && m[index].id != "" && m[index].name != "" ==> index in order
  }

  lemma {:induction false} ListedInOrder(calls: seq<ToolCall>, m: map<int, ToolCall>) returns (order: seq<int>)
    requires Lists(calls, m)
    ensures SentInOrder(m, ValidCalls(calls), order)
    decreases |calls|
  {
    order := [];
    if calls != [] {
      var last, front := calls[|calls| - 1], calls[..|calls| - 1];
      var key :| key in m && m[key] == last && Lists(front, m - {key});
      var rest := m - {key};
      var before := ListedInOrder(front, rest);
      forall i | 0 <= i < |before|
        ensures before[i] != key && SentAs(m, before[i], ValidCalls(front)[i])
      {
        assert SentAs(rest, before[i], ValidCalls(front)[i]);
      }
      if last.id == "" || last.name == "" {
        order := before;
        assert ValidCalls(calls) == ValidCalls(front) + [] == ValidCalls(front);
      } else {
        order := before + [key];
      }
    }
  }

  /** The calls a stream carries. */
  function CallsOf(cs: seq<Chunk>): map<int, ToolCall> {
    Assembled(Fragments(Consumed(cs)))
  }

  lemma RoundLists(r: Round)
    requires Possible(r) && r.calls != []
    ensures r.stream.Delivers? && Lists(r.calls, CallsOf(r.stream.chunks)) && r.asked == ValidCalls(r.calls)
  {
  }

  /** A round asks for exactly the calls its stream assembled that have an ID and a name, each once. */
  lemma AskedCallsAreAssembled(r: Round, c: ToolCall)
    requires Possible(r) && r.calls != []
    ensures r.stream.Delivers?
    ensures c in r.asked <==> exists index :: SentAs(CallsOf(r.stream.chunks), index, c)
    ensures exists order :: SentInOrder(CallsOf(r.stream.chunks), r.asked, order)
  {
    RoundLists(r);
    var order := ListedInOrder(r.calls, CallsOf(r.stream.chunks));
    ListedCallsAre(r.calls, CallsOf(r.stream.chunks), c);
  }

  // ----- The client's stream and the saved history -----

  /** The text of the first n frames, error frames aside. */
  function StreamedTo(fs: seq<Frame>, n: nat): string
    requires n <= |fs|
  {
    if n == 0 then "" else StreamedTo(fs, n - 1) + if fs[n - 1].Text? then fs[n - 1].content else ""
  }

  function StreamedText(fs: seq<Frame>): string {
    StreamedTo(fs, |fs|)
  }

  /** The text of the first n saved messages. */
  function SavedTextTo(ms: seq<SavedMessage>, n: nat): string
    requires n <= |ms|
  {
    if n == 0 then "" else SavedTextTo(ms, n - 1) + ms[n - 1].content
  }

  function SavedText(ms: seq<SavedMessage>): string {
    SavedTextTo(ms, |ms|)
  }

  lemma {:induction false} StreamedToConcat(a: seq<Frame>, b: seq<Frame>, n: nat)
    requires n <= |a| + |b|
    ensures StreamedTo(a + b, n) == if n <= |a| then StreamedTo(a, n) else StreamedText(a) + StreamedTo(b, n - |a|)
  {
    if n > |a| {
      StreamedToConcat(a, b, n - 1);
      assert StreamedText(a) + "" == StreamedText(a);
      Assoc(StreamedText(a), StreamedTo(b, n - |a| - 1), if b[n - |a| - 1].Text? then b[n - |a| - 1].content else "");
    } else if n > 0 {
      StreamedToConcat(a, b, n - 1);
    }
  }

  lemma {:induction false} SavedTextToConcat(a: seq<SavedMessage>, b: seq<SavedMessage>, n: nat)
    requires n <= |a| + |b|
    ensures SavedTextTo(a + b, n) == if n <= |a| then SavedTextTo(a, n) else SavedText(a) + SavedTextTo(b, n - |a|)
  {
    if n > |a| {
      SavedTextToConcat(a, b, n - 1);
      assert SavedText(a) + "" == SavedText(a);
      Assoc(SavedText(a), SavedTextTo(b, n - |a| - 1), b[n - |a| - 1].content);
    } else if n > 0 {
      SavedTextToConcat(a, b, n - 1);
    }
  }

  lemma StreamedTextConcat(a: seq<Frame>, b: seq<Frame>)
    ensures StreamedText(a + b) == StreamedText(a) + StreamedText(b)
  {
    StreamedToConcat(a, b, |a + b|);
    assert StreamedText(a) + "" == StreamedText(a);
  }

  lemma SavedTextConcat(a: seq<SavedMessage>, b: seq<SavedMessage>)
    ensures SavedText(a + b) == SavedText(a) + SavedText(b)
  {
    SavedTextToConcat(a, b, |a + b|);
    assert SavedText(a) + "" == SavedText(a);
  }

  lemma {:induction false} FramesCarryContent(cs: seq<Chunk>)
    ensures StreamedText(TextFrames(cs)) == Content(cs)
  {
    if cs != [] {
      var front, last := cs[..|cs| - 1], cs[|cs| - 1];
      var f, g := TextFrames(front), if last.content != "" then [Text(last.content)] else [];
      FramesCarryContent(front);
      StreamedTextConcat(f, g);
      assert g != [] ==> StreamedText(g) == StreamedTo(g, 0) + last.content;
      assert "" + last.content == last.content;
      assert Content(front) + "" == Content(front);
    }
  }

  lemma SavedTextOne(m: SavedMessage)
    ensures SavedText([m]) == m.content
  {
    assert SavedTextTo([m], 1) == SavedTextTo([m], 0) + m.content;
    assert "" + m.content == m.content;
  }

  lemma ErrorFrameIsSilent()
    ensures StreamedText([StreamError]) == ""
  {
    assert StreamedTo([StreamError], 1) == StreamedTo([StreamError], 0) + "";
  }

  /** One round shows the client what it saves. */
  lemma RoundStreamsReply(r: Round)
    requires Possible(r)
    ensures StreamedText(r.frames) == SavedText(r.kept)
  {
    assert StreamedText(r.frames) == r.reply by {
      if r.stream.Delivers? {
        FramesCarryContent(Consumed(r.stream.chunks));
      } else {
        ErrorFrameIsSilent();
      }
    }
    SavedTextOne(SavedMessage(Assistant, r.reply));
    assert r.kept == SavedReply(r);
  }

  predicate ShowsWhatItSaves(r: Round) {
    StreamedText(r.frames) == SavedText(r.kept)
  }

  lemma RunShows(rs: seq<Round>)
    requires Run(rs)
    ensures forall i :: 0 <= i < |rs| ==> ShowsWhatItSaves(rs[i])
  {
    forall i | 0 <= i < |rs|
      ensures ShowsWhatItSaves(rs[i])
    {
      RunIsPossible(rs, i);
      RoundStreamsReply(rs[i]);
    }
  }

  lemma StreamedAppend(f: seq<Frame>, g: seq<Frame>, saved: seq<SavedMessage>, kept: seq<SavedMessage>)
    requires StreamedText(f) == SavedText(saved) && StreamedText(g) == SavedText(kept)
    ensures StreamedText(f + g) == SavedText(saved + kept)
  {
    StreamedTextConcat(f, g);
    SavedTextConcat(saved, kept);
  }

  lemma {:induction false} StreamedIsSavedSoFar(rs: seq<Round>, n: nat)
    requires n <= |rs| && forall i :: 0 <= i < n ==> ShowsWhatItSaves(rs[i])
    ensures StreamedText(FrameTail(rs, n)) == SavedText(SavedTail(rs, n))
  {
    if n > 0 {
      StreamedIsSavedSoFar(rs, n - 1);
      StreamedAppend(FrameTail(rs, n - 1), rs[n - 1].frames, SavedTail(rs, n - 1), rs[n - 1].kept);
    }
  }

  /**
    Over a whole run, whatever its exits, the text streamed to the client, error frames aside,
    is the text of the messages added to the saved history.
  */
  lemma StreamedIsSaved(rs: seq<Round>, t: Talk)
    requires Run(rs)
    ensures var end := AfterRounds(rs, |rs|, t);
            && t.frames <= end.frames && t.saved <= end.saved
            && StreamedText(end.frames[|t.frames|..]) == SavedText(end.saved[|t.saved|..])
  {
    RunShows(rs);
    RunsOnlyAdd(rs, |rs|, t);
    StreamedIsSavedSoFar(rs, |rs|);
    assert (t.frames + FrameTail(rs, |rs|))[|t.frames|..] == FrameTail(rs, |rs|);
    assert (t.saved + SavedTail(rs, |rs|))[|t.saved|..] == SavedTail(rs, |rs|);
  }

  // ----- The two histories -----

  /** The texts of the plain assistant messages among the first n. */
  function PlainTextsTo(ms: seq<Message>, n: nat): seq<string>
    requires n <= |ms|
  {
    if n == 0 then [] else PlainTextsTo(ms, n - 1) + PlainText(ms[n - 1])
  }

  function PlainText(m: Message): seq<string> {
    if m.role == Assistant && m.toolCalls == [] then [m.content] else []
  }

  function PlainTexts(ms: seq<Message>): seq<string> {
    PlainTextsTo(ms, |ms|)
  }

  function SavedTexts(ms: seq<SavedMessage>): seq<string> {
    seq(|ms|, i requires 0 <= i < |ms| => ms[i].content)
  }

  ghost predicate Embeds(a: seq<string>, b: seq<string>, at: seq<nat>) {
    && |at| == |a|
    && (forall i :: 0 <= i < |at| ==> at[i] < |b| && a[i] == b[at[i]])
    && (forall i, j :: 0 <= i < j < |at| ==> at[i] < at[j])
  }

  lemma {:induction false} PlainTextsToConcat(a: seq<Message>, b: seq<Message>, n: nat)
    requires n <= |a| + |b|
    ensures PlainTextsTo(a + b, n) == if n <= |a| then PlainTextsTo(a, n) else PlainTexts(a) + PlainTextsTo(b, n - |a|)
  {
    if n > |a| {
      PlainTextsToConcat(a, b, n - 1);
      assert PlainTexts(a) + [] == PlainTexts(a);
      Assoc(PlainTexts(a), PlainTextsTo(b, n - |a| - 1), PlainText(b[n - |a| - 1]));
    } else if n > 0 {
      PlainTextsToConcat(a, b, n - 1);
    }
  }

  lemma PlainTextsConcat(a: seq<Message>, b: seq<Message>)
    ensures PlainTexts(a + b) == PlainTexts(a) + PlainTexts(b)
  {
    PlainTextsToConcat(a, b, |a + b|);
    assert PlainTexts(a) + [] == PlainTexts(a);
  }

  lemma SavedTextsConcat(a: seq<SavedMessage>, b: seq<SavedMessage>)
    ensures SavedTexts(a + b) == SavedTexts(a) + SavedTexts(b)
  {
  }

  lemma {:induction false} NoPlainTexts(ms: seq<Message>, n: nat)
    requires n <= |ms| && forall i :: 0 <= i < |ms| ==> ms[i].role != Assistant || ms[i].toolCalls != []
    ensures PlainTextsTo(ms, n) == []
  {
    if n > 0 {
      NoPlainTexts(ms, n - 1);
    }
  }

  /** The round's reply, left out if it ended in tool calls or not. */
  function ReplyIn(r: Round, all: bool): seq<string> {
    if r.reply == "" || (r.finish == ToolCallsFinish && !all) then [] else [r.reply]
  }

  /** The replies of the first n rounds. */
  function Replies(rs: seq<Round>, n: nat, all: bool): seq<string>
    requires n <= |rs|
  {
    if n == 0 then [] else Replies(rs, n - 1, all) + ReplyIn(rs[n - 1], all)
  }

  lemma PlainReplyTexts(r: Round)
    ensures PlainTexts(PlainReply(r)) == ReplyIn(r, false)
  {
    var plain := PlainReply(r);
    if plain != [] {
      assert PlainTexts(plain) == PlainTextsTo(plain, 0) + PlainText(plain[0]);
    }
  }

  lemma AddedTexts(r: Round)
    requires Adds(r) && |r.answers| == |r.asked| && forall i :: 0 <= i < |r.answers| ==> r.answers[i].role == Tool
    ensures PlainTexts(r.added) == ReplyIn(r, false) && SavedTexts(r.kept) == ReplyIn(r, true)
  {
    hide PlainTextsTo;
    var plain, tools := PlainReply(r), ToolMessages(r.asked, r.answers);
    NoPlainTexts(tools, |tools|);
    PlainTextsConcat(plain, tools);
    PlainReplyTexts(r);
  }

  /** A round adds its reply to the saved texts, and to the model's unless it ended in tool calls. */
  lemma RoundTexts(r: Round)
    requires Possible(r)
    ensures PlainTexts(r.added) == ReplyIn(r, false) && SavedTexts(r.kept) == ReplyIn(r, true)
  {
    forall i | 0 <= i < |r.answers|
      ensures r.answers[i].role == Tool
    {
      AnswersFit(r, i);
    }
    AddedTexts(r);
  }

  predicate TellsReply(r: Round) {
    PlainTexts(r.added) == ReplyIn(r, false) && SavedTexts(r.kept) == ReplyIn(r, true)
  }

  lemma RunTells(rs: seq<Round>)
    requires Run(rs)
    ensures forall i :: 0 <= i < |rs| ==> TellsReply(rs[i])
  {
    forall i | 0 <= i < |rs|
      ensures TellsReply(rs[i])
    {
      RunIsPossible(rs, i);
      RoundTexts(rs[i]);
    }
  }

  lemma NoTexts()
    ensures PlainTexts([]) == [] && SavedTexts([]) == []
  {
  }

  lemma TextsNext(saved: seq<SavedMessage>, model: seq<Message>, r: Round)
    requires TellsReply(r)
    ensures PlainTexts(model + r.added) == PlainTexts(model) + ReplyIn(r, false)
    ensures SavedTexts(saved + r.kept) == SavedTexts(saved) + ReplyIn(r, true)
  {
    PlainTextsConcat(model, r.added);
    SavedTextsConcat(saved, r.kept);
  }

  lemma {:induction false} TailTexts(rs: seq<Round>, n: nat)
    requires n <= |rs| && forall i :: 0 <= i < n ==> TellsReply(rs[i])
    ensures PlainTexts(ModelTail(rs, n)) == Replies(rs, n, false)
    ensures SavedTexts(SavedTail(rs, n)) == Replies(rs, n, true)
  {
    hide TellsReply, ReplyIn, PlainTexts, SavedTexts;
    if n == 0 {
      NoTexts();
    } else {
      TailTexts(rs, n - 1);
      TextsNext(SavedTail(rs, n - 1), ModelTail(rs, n - 1), rs[n - 1]);
    }
  }

  lemma {:induction false} RepliesEmbed(rs: seq<Round>, n: nat) returns (at: seq<nat>)
    requires n <= |rs|
    ensures Embeds(Replies(rs, n, false), Replies(rs, n, true), at)
  {
    if n == 0 {
      at := [];
    } else {
      at := RepliesEmbed(rs, n - 1);
      if rs[n - 1].reply != "" && rs[n - 1].finish != ToolCallsFinish {
        at := at + [|Replies(rs, n - 1, true)|];
      }
    }
  }

  /** Some round that finished with `tool_calls` also sent text. */
  ghost predicate TextBesideCalls(rs: seq<Round>, n: nat)
    requires n <= |rs|
  {
    exists i :: 0 <= i < n && rs[i].finish == ToolCallsFinish && rs[i].reply != ""
  }

  lemma {:induction false} RepliesAgreeIff(rs: seq<Round>, n: nat)
    requires n <= |rs|
    ensures var model, saved := Replies(rs, n, false), Replies(rs, n, true);
            if TextBesideCalls(rs, n) then |model| < |saved| else model == saved
  {
    if n > 0 {
      RepliesAgreeIff(rs, n - 1);
      var r := rs[n - 1];
      assert TextBesideCalls(rs, n) <==> TextBesideCalls(rs, n - 1) || (r.finish == ToolCallsFinish && r.reply != "");
    }
  }

  /**
    The plain assistant texts that a run adds to the model's history are a subsequence of
    those it adds to the saved one, and the same texts iff no round that finished with
    `tool_calls` also sent text.
  */
  lemma ModelTextsAmongSaved(rs: seq<Round>, t: Talk) returns (at: seq<nat>)
    requires Run(rs)
    ensures var end := AfterRounds(rs, |rs|, t);
            && t.messages <= end.messages && t.saved <= end.saved
            && var model, saved := PlainTexts(end.messages[|t.messages|..]), SavedTexts(end.saved[|t.saved|..]);
            Embeds(model, saved, at) && (model == saved <==> !TextBesideCalls(rs, |rs|))
  {
    RunTells(rs);
    TailTexts(rs, |rs|);
    RunsOnlyAdd(rs, |rs|, t);
    at := RepliesEmbed(rs, |rs|);
    RepliesAgreeIff(rs, |rs|);
    assert (t.messages + ModelTail(rs, |rs|))[|t.messages|..] == ModelTail(rs, |rs|);
    assert (t.saved + SavedTail(rs, |rs|))[|t.saved|..] == SavedTail(rs, |rs|);
  }
}
