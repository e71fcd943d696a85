/** Replies normalised to the loop's shape (runtime/anthropic_wire.py) and the history the agent
    loop builds from them (agent_runtime.py): every request it sends is well paired. */
module AgentLoop {
  import opened Common
  import opened AnthropicWire

  // ----- a reply -----------------------------------------------------------------------------

  datatype Payload = Payload(blocks: seq<Block>, inputTokens: int, outputTokens: int, stopReason: string)

  datatype Reply = Reply(
    message: Message, finishReason: string, promptTokens: int, completionTokens: int, totalTokens: int)

  function ReplyText(b: Block): seq<string> {
    if b.TextBlock? && b.text != "" then [b.text] else []
  }

  function ReplyTexts(blocks: seq<Block>): seq<string> {
    if blocks == [] then [] else ReplyText(blocks[0]) + ReplyTexts(blocks[1..])
  }

  function ReplyCall(codec: Codec, b: Block): seq<ToolCall> {
    if b.ToolUse? then
      [Call(Some(b.id), Some(b.name), ArgsText(codec.dumps(if FalsyJson(b.input) then Object(map[]) else b.input)))]
    else []
  }

  /** A tool use is called by its own id and name with its input printed, an empty value as an empty object. */
  lemma {:induction false} ReplyCallMeans(codec: Codec, b: Block)
    ensures !b.ToolUse? ==> ReplyCall(codec, b) == []
    ensures b.ToolUse? ==>
              && |ReplyCall(codec, b)| == 1 && ReplyCall(codec, b)[0].Call?
              && ReplyCall(codec, b)[0].id == Some(b.id) && ReplyCall(codec, b)[0].name == Some(b.name)
              && ReplyCall(codec, b)[0].args ==
                 ArgsText(codec.dumps(
                   if b.input in {Null, Bool(false), Number(0), Str(""), Array([])} then Object(map[]) else b.input))
  {
  }

  function ReplyCalls(codec: Codec, blocks: seq<Block>): seq<ToolCall> {
    if blocks == [] then [] else ReplyCall(codec, blocks[0]) + ReplyCalls(codec, blocks[1..])
  }

  /** Non-empty texts joined by newlines, then one call per `tool_use` block. */
  function ReplyMessage(codec: Codec, blocks: seq<Block>): Message {
    var text := Join("\n", ReplyTexts(blocks));
    Msg(Assistant, if text == "" then Absent else Text(text), ReplyCalls(codec, blocks), None)
  }

  lemma {:induction false} ReplyAppend(codec: Codec, a: seq<Block>, b: Block)
    ensures ReplyTexts(a + [b]) == ReplyTexts(a) + ReplyText(b)
    ensures ReplyCalls(codec, a + [b]) == ReplyCalls(codec, a) + ReplyCall(codec, b)
  {
    if a != [] {
      assert (a + [b])[1..] == a[1..] + [b];
      ReplyAppend(codec, a[1..], b);
    }
  }

  lemma {:induction false} ReplyTextsAreText(blocks: seq<Block>)
    ensures forall t :: t in ReplyTexts(blocks) ==> t != ""
  {
    if blocks != [] {
      ReplyTextsAreText(blocks[1..]);
    }
  }

  lemma {:induction false} JoinedIsEmptyIff(sep: string, parts: seq<string>)
    requires forall p :: p in parts ==> p != ""
    ensures Join(sep, parts) == "" <==> parts == []
  {
    if parts != [] {
      assert parts[0] in parts;
    }
  }

  method FromAnthropicResponse(codec: Codec, payload: Payload) returns (r: Reply)
    ensures r.message == ReplyMessage(codec, payload.blocks)
    ensures r.message.content.Absent? <==> ReplyTexts(payload.blocks) == []
    ensures !r.message.content.Absent? ==>
              r.message.content.Text? && LaidOut("\n", ReplyTexts(payload.blocks), r.message.content.text)
    ensures r.totalTokens == r.promptTokens + r.completionTokens
    ensures r.promptTokens == payload.inputTokens && r.completionTokens == payload.outputTokens
    ensures r.finishReason == if payload.stopReason == "tool_use" then "tool_calls" else "stop"
  {
    var blocks := payload.blocks;
    var texts: seq<string> := [];
    var calls: seq<ToolCall> := [];
    for i := 0 to |blocks|
      invariant texts == ReplyTexts(blocks[..i])
      invariant calls == ReplyCalls(codec, blocks[..i])
    {
      assert blocks[..i + 1] == blocks[..i] + [blocks[i]];
      ReplyAppend(codec, blocks[..i], blocks[i]);
      if blocks[i].TextBlock? {
        if blocks[i].text != "" {
          texts := texts + [blocks[i].text];
        }
      } else if blocks[i].ToolUse? {
        calls := calls + ReplyCall(codec, blocks[i]);
      }
    }
    assert blocks[..|blocks|] == blocks;
    var text := Join("\n", texts);
    ReplyTextsAreText(blocks);
    JoinLaysOut("\n", texts);
    JoinedIsEmptyIff("\n", texts);
    var message := Msg(Assistant, if text == "" then Absent else Text(text), calls, None);
    return Reply(message, if payload.stopReason == "tool_use" then "tool_calls" else "stop",
                 payload.inputTokens, payload.outputTokens, payload.inputTokens + payload.outputTokens);
  }

  // ----- there and back ------------------------------------------------------------------------

  /** The codec gives this value back. */
  predicate RoundTrips(codec: Codec, j: Json) {
    j.Object? && codec.dumps(j) != "" && codec.loads(codec.dumps(j)) == Some(j)
  }

  function IsUse(): Block -> bool {
    (b: Block) => b.ToolUse?
  }

  predicate Named(blocks: seq<Block>) {
    forall b :: b in blocks && b.ToolUse? ==> b.id != ""
  }

  lemma {:induction false} UsesOfCallsIff(codec: Codec, blocks: seq<Block>)
    requires forall b :: b in blocks && b.ToolUse? ==> RoundTrips(codec, b.input)
    ensures |Uses(codec, ReplyCalls(codec, blocks))| == |Filter(blocks, IsUse())|
    ensures Uses(codec, ReplyCalls(codec, blocks)) == Filter(blocks, IsUse()) <==> Named(blocks)
  {
    if blocks != [] {
      var b, rest := blocks[0], blocks[1..];
      assert forall x :: x in blocks <==> x == b || x in rest;
      UsesOfCallsIff(codec, rest);
      var calls := ReplyCalls(codec, blocks);
      if b.ToolUse? {
        assert calls == [calls[0]] + ReplyCalls(codec, rest);
        assert calls[1..] == ReplyCalls(codec, rest);
        var u, f := Uses(codec, calls), Filter(blocks, IsUse());
        UseOfCall(codec, b);
        assert u == [ToolUse(Or(Some(b.id), "unknown"), b.name, b.input)] + Uses(codec, ReplyCalls(codec, rest));
        assert f == [b] + Filter(rest, IsUse());
        assert u == f <==> u[0] == f[0] && u[1..] == f[1..];
      } else {
        assert calls == ReplyCalls(codec, rest);
      }
    }
  }

  lemma {:induction false} UseOfCall(codec: Codec, b: Block)
    requires b.ToolUse? && RoundTrips(codec, b.input)
    ensures ReplyCall(codec, b)[0].Call?
    ensures ParsedArgs(codec, ReplyCall(codec, b)[0].args) == b.input
  {
    if FalsyJson(b.input) {
      assert b.input == Object(map[]);
    }
  }

  /** Normalising a response that calls tools and translating it back gives one assistant turn:
      at most one text block, joining the non-empty texts, and then the response's `tool_use`
      blocks unchanged and in order, the latter exactly when every one of them has an id. */
  lemma {:induction false} ReplyRoundTripIff(codec: Codec, blocks: seq<Block>)
    requires exists b :: b in blocks && b.ToolUse?
    requires forall b :: b in blocks && b.ToolUse? ==> RoundTrips(codec, b.input)
    ensures var text := Join("\n", ReplyTexts(blocks));
            var back := (if Blank(text) then [] else [TextBlock(text)]) + Filter(blocks, IsUse());
            Translate(codec, [ReplyMessage(codec, blocks)], []) == [Msg(Assistant, Blocks(back), [], None)]
            <==> Named(blocks)
  {
    var m := ReplyMessage(codec, blocks);
    UsesOfCallsIff(codec, blocks);
    var b :| b in blocks && b.ToolUse?;
    assert b in Filter(blocks, IsUse());
    assert Uses(codec, m.toolCalls) != [];
    assert ToolTurn(m);
    var text := TurnText(m.content);
    TurnTranslates(codec, m, [], []);
    assert [m] + [] == [m];
    assert Translate(codec, [m], []) == [Msg(Assistant, Blocks(text + Uses(codec, m.toolCalls)), [], None)];
    SamePrefix(text, Uses(codec, m.toolCalls), Filter(blocks, IsUse()));
  }

  lemma {:induction false} TurnTranslates(codec: Codec, m: Message, rest: seq<Message>, pending: seq<Block>)
    requires ToolTurn(m)
    ensures Translate(codec, [m] + rest, pending) ==
            Flush(pending) + ([Msg(Assistant, Blocks(TurnBlocks(codec, m)), [], None)] + Translate(codec, rest, []))
  {
    assert ([m] + rest)[1..] == rest;
  }

  lemma {:induction false} SamePrefix(p: seq<Block>, a: seq<Block>, b: seq<Block>)
    ensures p + a == p + b <==> a == b
  {
    if p + a == p + b {
      assert a == (p + a)[|p|..] && b == (p + b)[|p|..];
    }
  }

  // ----- the history ---------------------------------------------------------------------------

  /** One tool-calling turn: the reply and the text of each tool's result. */
  datatype Turn = Turn(reply: Message, results: seq<string>)

  predicate GoodTurn(t: Turn) {
    && ToolTurn(t.reply) && !t.reply.content.Blocks?
    && (forall i :: 0 <= i < |t.reply.toolCalls| ==> t.reply.toolCalls[i].Call?)
    && |t.results| == |t.reply.toolCalls|
  }

  predicate GoodTurns(turns: seq<Turn>) {
    forall i :: 0 <= i < |turns| ==> GoodTurn(turns[i])
  }

  function ToolMessage(c: ToolCall, result: string): Message
    requires c.Call?
  {
    Msg(Tool, Text(result), [], if c.id.Some? then c.id else Some("unknown"))
  }

  function ToolMessages(calls: seq<ToolCall>, results: seq<string>): seq<Message>
    requires |calls| == |results| && forall i :: 0 <= i < |calls| ==> calls[i].Call?
  {
    if calls == [] then [] else [ToolMessage(calls[0], results[0])] + ToolMessages(calls[1..], results[1..])
  }

  function TurnMessages(t: Turn): seq<Message>
    requires GoodTurn(t)
  {
    [t.reply] + ToolMessages(t.reply.toolCalls, t.results)
  }

  function TurnsHistory(turns: seq<Turn>): seq<Message>
    requires GoodTurns(turns)
  {
    if turns == [] then []
    else
      TurnMessages(turns[0]) + TurnsHistory(turns[1..])
  }

  // ----- a well-paired request -------------------------------------------------------------------

  function UseIds(blocks: seq<Block>): seq<string> {
    if blocks == [] then []
    else (if blocks[0].ToolUse? then [blocks[0].id] else []) + UseIds(blocks[1..])
  }

  function ResultIds(blocks: seq<Block>): seq<string> {
    if blocks == [] then []
    else (if blocks[0].ToolResult? then [blocks[0].toolUseId] else []) + ResultIds(blocks[1..])
  }

  /** An assistant turn whose tool uses are answered, in order and by nothing else, in `u`. */
  predicate Answered(a: Message, u: Message) {
    && a.Msg? && a.role.Assistant? && a.content.Blocks? && u.Msg? && u.role.User? && u.content.Blocks?
    && UseIds(a.content.blocks) == ResultIds(u.content.blocks) != []
    && forall b :: b in u.content.blocks ==> b.ToolResult?
  }

  predicate Exchanges(out: seq<Message>) {
    out == [] || (|out| >= 2 && Answered(out[0], out[1]) && Exchanges(out[2..]))
  }

  /** A user message followed by answered assistant turns. */
  predicate WellPaired(out: seq<Message>) {
    out != [] && out[0].Msg? && out[0].role.User? && Exchanges(out[1..])
  }

  lemma {:induction false} ExchangesAt(out: seq<Message>, i: nat)
    requires Exchanges(out) && 2 * i < |out|
    ensures 2 * i + 1 < |out| && Answered(out[2 * i], out[2 * i + 1])
    ensures exists k :: |out| == 2 * k
  {
    if i > 0 {
      ExchangesAt(out[2..], i - 1);
      var k :| |out[2..]| == 2 * k;
      assert |out| == 2 * (k + 1);
    } else if |out| > 2 {
      ExchangesAt(out[2..], 0);
      var k :| |out[2..]| == 2 * k;
      assert |out| == 2 * (k + 1);
    } else {
      assert |out| == 2 * 1;
    }
  }

  /** Read by position: roles alternate starting and ending with the user, and each assistant
      turn is answered by the very next message. */
  lemma {:induction false} WellPairedAt(out: seq<Message>, i: nat)
    requires WellPaired(out) && i < |out|
    ensures out[i].Msg?
    ensures i % 2 == 0 ==> out[i].role.User?
    ensures i % 2 == 1 ==> i + 1 < |out| && out[i].role.Assistant? && Answered(out[i], out[i + 1])
    ensures i % 2 == 1 ==>
              && out[i].content.Blocks? && out[i + 1].Msg? && out[i + 1].content.Blocks?
              && UseIds(out[i].content.blocks) == ResultIds(out[i + 1].content.blocks) != []
              && forall b :: b in out[i + 1].content.blocks ==> b.ToolResult?
  {
    if i > 0 {
      var tail := out[1..];
      ExchangesAt(tail, (i - 1) / 2);
      assert out[i] == tail[i - 1];
      if i % 2 == 1 {
        assert out[i + 1] == tail[i];
      }
    }
  }

  // ----- translating the history -----------------------------------------------------------------

  function ResultBlocks(calls: seq<ToolCall>, results: seq<string>): seq<Block>
    requires |calls| == |results| && forall i :: 0 <= i < |calls| ==> calls[i].Call?
  {
    if calls == [] then []
    else [ToolResult(Or(calls[0].id, "unknown"), results[0])] + ResultBlocks(calls[1..], results[1..])
  }

  lemma {:induction false} ToolMessagesAreBuffered(
      codec: Codec, calls: seq<ToolCall>, results: seq<string>, rest: seq<Message>, pending: seq<Block>)
    requires |calls| == |results| && forall i :: 0 <= i < |calls| ==> calls[i].Call?
    ensures Translate(codec, ToolMessages(calls, results) + rest, pending) ==
            Translate(codec, rest, pending + ResultBlocks(calls, results))
    decreases |calls|
  {
    if calls == [] {
      assert ToolMessages(calls, results) + rest == rest;
      assert pending + ResultBlocks(calls, results) == pending;
    } else {
      var m := ToolMessage(calls[0], results[0]);
      var more := ToolMessages(calls[1..], results[1..]) + rest;
      var r := ToolResult(Or(calls[0].id, "unknown"), results[0]);
      assert ToolMessages(calls, results) + rest == [m] + more;
      assert ([m] + more)[1..] == more;
      assert ToolResultOf(codec, m) == r;
      ToolMessagesAreBuffered(codec, calls[1..], results[1..], rest, pending + [r]);
      assert pending + [r] + ResultBlocks(calls[1..], results[1..]) == pending + ResultBlocks(calls, results);
    }
  }

  lemma {:induction false} ResultsAnswerUses(codec: Codec, calls: seq<ToolCall>, results: seq<string>)
    requires |calls| == |results| && forall i :: 0 <= i < |calls| ==> calls[i].Call?
    ensures UseIds(Uses(codec, calls)) == ResultIds(ResultBlocks(calls, results))
    ensures |UseIds(Uses(codec, calls))| == |calls|
    ensures forall b :: b in ResultBlocks(calls, results) ==> b.ToolResult?
  {
    if calls != [] {
      ResultsAnswerUses(codec, calls[1..], results[1..]);
    }
  }

  /** The two messages one turn becomes. */
  function Exchange(codec: Codec, t: Turn): seq<Message>
    requires GoodTurn(t)
  {
    [Msg(Assistant, Blocks(TurnBlocks(codec, t.reply)), [], None),
     Msg(User, Blocks(ResultBlocks(t.reply.toolCalls, t.results)), [], None)]
  }

  lemma {:induction false} TurnIsAnswered(codec: Codec, t: Turn)
    requires GoodTurn(t)
    ensures Answered(Exchange(codec, t)[0], Exchange(codec, t)[1])
  {
    var calls := t.reply.toolCalls;
    ResultsAnswerUses(codec, calls, t.results);
    var text, uses := TurnText(t.reply.content), Uses(codec, calls);
    if text == [] {
      assert text + uses == uses;
    } else {
      assert (text + uses)[1..] == uses;
    }
  }

  /** A turn leaves its tool results in the buffer. */
  lemma {:induction false} FirstTurnTranslates(codec: Codec, t: Turn, rest: seq<Message>, pending: seq<Block>)
    requires GoodTurn(t)
    ensures Translate(codec, TurnMessages(t) + rest, pending) ==
            Flush(pending) + ([Exchange(codec, t)[0]]
              + Translate(codec, rest, ResultBlocks(t.reply.toolCalls, t.results)))
  {
    var calls := t.reply.toolCalls;
    var tools, results := ToolMessages(calls, t.results), ResultBlocks(calls, t.results);
    assert TurnMessages(t) + rest == [t.reply] + (tools + rest);
    TurnTranslates(codec, t.reply, tools + rest, pending);
    ToolMessagesAreBuffered(codec, calls, t.results, rest, []);
    assert [] + results == results;
  }

  function Exchanged(codec: Codec, turns: seq<Turn>): seq<Message>
    requires GoodTurns(turns)
  {
    if turns == [] then [] else Exchange(codec, turns[0]) + Exchanged(codec, turns[1..])
  }

  /** The translation of the turns, exactly: what was buffered, then two messages a turn. */
  lemma {:induction false} HistoryTranslates(codec: Codec, turns: seq<Turn>, pending: seq<Block>)
    requires GoodTurns(turns)
    ensures Translate(codec, TurnsHistory(turns), pending) == Flush(pending) + Exchanged(codec, turns)
    decreases |turns|
  {
    if turns != [] {
      var t := turns[0];
      var results := ResultBlocks(t.reply.toolCalls, t.results);
      FirstTurnTranslates(codec, t, TurnsHistory(turns[1..]), pending);
      HistoryTranslates(codec, turns[1..], results);
      ExchangeJoins(codec, t, Exchanged(codec, turns[1..]));
    }
  }

  lemma {:induction false} ExchangeJoins(codec: Codec, t: Turn, rest: seq<Message>)
    requires GoodTurn(t)
    ensures [Exchange(codec, t)[0]] + (Flush(ResultBlocks(t.reply.toolCalls, t.results)) + rest) ==
            Exchange(codec, t) + rest
  {
    assert ResultBlocks(t.reply.toolCalls, t.results) != [];
  }

  lemma {:induction false} ExchangedIsPaired(codec: Codec, turns: seq<Turn>)
    requires GoodTurns(turns)
    ensures Exchanges(Exchanged(codec, turns))
    decreases |turns|
  {
    if turns != [] {
      var e, rest := Exchange(codec, turns[0]), Exchanged(codec, turns[1..]);
      ExchangedIsPaired(codec, turns[1..]);
      TurnIsAnswered(codec, turns[0]);
      PrependExchange(e[0], e[1], rest);
      assert e + rest == [e[0], e[1]] + rest;
    }
  }

  lemma {:induction false} PrependExchange(a: Message, u: Message, rest: seq<Message>)
    requires Answered(a, u) && Exchanges(rest)
    ensures Exchanges([a, u] + rest)
  {
    assert ([a, u] + rest)[2..] == rest;
  }

  /** The request body built from the loop's history is well paired. */
  lemma {:induction false} RequestIsWellPaired(codec: Codec, system: string, user: string, turns: seq<Turn>)
    requires GoodTurns(turns)
    ensures WellPaired(Translate(codec, Filter(History(system, user, turns), NotSystem()), []))
  {
    var s, u := Msg(System, Text(system), [], None), Msg(User, Text(user), [], None);
    var tail := TurnsHistory(turns);
    TurnsHaveNoSystem(turns);
    FilterAll(tail, NotSystem());
    FilterAppend([s, u], tail, NotSystem());
    assert Filter([s, u], NotSystem()) == [u] by {
      assert [s, u][1..] == [u] && [u][1..] == [];
    }
    AfterUser(codec, u, turns);
  }

  lemma {:induction false} AfterUser(codec: Codec, u: Message, turns: seq<Turn>)
    requires GoodTurns(turns) && u.Msg? && u.role.User? && u.toolCalls == []
    ensures WellPaired(Translate(codec, [u] + TurnsHistory(turns), []))
  {
    var paired := Exchanged(codec, turns);
    UserFirst(codec, u, TurnsHistory(turns));
    HistoryTranslates(codec, turns, []);
    ExchangedIsPaired(codec, turns);
    assert Flush([]) + paired == paired;
    assert ([u] + paired)[1..] == paired;
  }

  lemma {:induction false} UserFirst(codec: Codec, u: Message, tail: seq<Message>)
    requires u.Msg? && u.role.User? && u.toolCalls == []
    ensures Translate(codec, [u] + tail, []) == [u] + Translate(codec, tail, [])
  {
    assert ([u] + tail)[1..] == tail;
  }

  function History(system: string, user: string, turns: seq<Turn>): seq<Message>
    requires GoodTurns(turns)
  {
    [Msg(System, Text(system), [], None), Msg(User, Text(user), [], None)] + TurnsHistory(turns)
  }

  lemma {:induction false} ToolMessagesHaveNoSystem(calls: seq<ToolCall>, results: seq<string>)
    requires |calls| == |results| && forall i :: 0 <= i < |calls| ==> calls[i].Call?
    ensures forall m :: m in ToolMessages(calls, results) ==> NotSystem()(m)
  {
    if calls != [] {
      ToolMessagesHaveNoSystem(calls[1..], results[1..]);
    }
  }

  lemma {:induction false} TurnsHaveNoSystem(turns: seq<Turn>)
    requires GoodTurns(turns)
    ensures forall m :: m in TurnsHistory(turns) ==> NotSystem()(m)
  {
    if turns != [] {
      TurnsHaveNoSystem(turns[1..]);
      ToolMessagesHaveNoSystem(turns[0].reply.toolCalls, turns[0].results);
    }
  }

  // ----- the loop --------------------------------------------------------------------------------

  const MAX_TURNS: nat := 10
  const MAX_LLM_CALLS: nat := 10
  const MAX_TOKENS_PER_JOB: int := 50_000

  datatype LlmOutcome = Raised | Returned(payload: Payload)

  datatype Outcome =
    | TimedOut
    | LlmCallLimit
    | LlmCallFailed
    | TokenBudgetExceeded
    | Answer(content: Content)
    | MaxTurnsReached

  lemma {:induction false} ReplyCallsAreCalls(codec: Codec, blocks: seq<Block>)
    ensures forall i :: 0 <= i < |ReplyCalls(codec, blocks)| ==> ReplyCalls(codec, blocks)[i].Call?
  {
    if blocks != [] {
      ReplyCallsAreCalls(codec, blocks[1..]);
    }
  }

  lemma {:induction false} ToolMessagesAppend(calls: seq<ToolCall>, results: seq<string>, c: ToolCall, r: string)
    requires |calls| == |results| && (forall i :: 0 <= i < |calls| ==> calls[i].Call?) && c.Call?
    ensures ToolMessages(calls + [c], results + [r]) == ToolMessages(calls, results) + [ToolMessage(c, r)]
  {
    if calls != [] {
      assert (calls + [c])[1..] == calls[1..] + [c] && (results + [r])[1..] == results[1..] + [r];
      ToolMessagesAppend(calls[1..], results[1..], c, r);
    }
  }

  /** One reply per call, whatever each tool did. */
  method RunTools(calls: seq<ToolCall>, turn: nat, toolReply: (nat, nat) -> string)
    returns (replies: seq<Message>, results: seq<string>)
    requires forall i :: 0 <= i < |calls| ==> calls[i].Call?
    ensures |results| == |calls| && replies == ToolMessages(calls, results)
    ensures forall j :: 0 <= j < |results| ==> results[j] == toolReply(turn, j)
    ensures |replies| == |calls| && forall j :: 0 <= j < |calls| ==>
              replies[j] == Msg(Tool, Text(toolReply(turn, j)), [], Some(OrElse(calls[j].id, "unknown")))
  {
    replies, results := [], [];
    for j := 0 to |calls|
      invariant |results| == j && replies == ToolMessages(calls[..j], results)
      invariant forall i :: 0 <= i < j ==> results[i] == toolReply(turn, i)
      invariant |replies| == j && forall i :: 0 <= i < j ==>
                  replies[i] == Msg(Tool, Text(toolReply(turn, i)), [], Some(OrElse(calls[i].id, "unknown")))
    {
      assert calls[..j + 1] == calls[..j] + [calls[j]];
      var r := toolReply(turn, j);
      ToolMessagesAppend(calls[..j], results, calls[j], r);
      replies := replies + [ToolMessage(calls[j], r)];
      results := results + [r];
    }
    assert calls[..|calls|] == calls;
  }

  lemma {:induction false} TurnsAppend(turns: seq<Turn>, t: Turn)
    requires GoodTurns(turns) && GoodTurn(t)
    ensures GoodTurns(turns + [t])
    ensures TurnsHistory(turns + [t]) == TurnsHistory(turns) + TurnMessages(t)
  {
    if turns == [] {
      assert turns + [t] == [t] && [t][1..] == [];
    } else {
      var x, rest := TurnMessages(turns[0]), TurnsHistory(turns[1..]);
      assert (turns + [t])[1..] == turns[1..] + [t];
      TurnsAppend(turns[1..], t);
      assert x + (rest + TurnMessages(t)) == (x + rest) + TurnMessages(t);
    }
  }

  lemma {:induction false} NoSystemParts(messages: seq<Message>)
    requires forall m :: m in messages ==> NotSystem()(m)
    ensures SystemParts(messages) == []
  {
    if messages != [] {
      assert messages[0] in messages;
      NoSystemParts(messages[1..]);
    }
  }

  /** The system prompt of the loop becomes the request's `system` parameter, unless it is blank. */
  lemma {:induction false} SystemOfHistory(system: string, user: string, turns: seq<Turn>)
    requires GoodTurns(turns)
    ensures SystemOf(History(system, user, turns)) == if Blank(system) then None else Some(system)
  {
    var h := History(system, user, turns);
    assert h[1..] == [Msg(User, Text(user), [], None)] + TurnsHistory(turns);
    TurnsHaveNoSystem(turns);
    NoSystemParts(h[1..]);
  }

  /** Turn `k` is the normalised reply of call `k` and what its tools returned. */
  ghost predicate TurnAt(codec: Codec, llm: nat -> LlmOutcome, toolReply: (nat, nat) -> string, k: nat, t: Turn) {
    && GoodTurn(t) && llm(k).Returned? && t.reply == ReplyMessage(codec, llm(k).payload.blocks)
    && forall j :: 0 <= j < |t.results| ==> t.results[j] == toolReply(k + 1, j)
  }

  ghost predicate TurnsAt(codec: Codec, llm: nat -> LlmOutcome, toolReply: (nat, nat) -> string, turns: seq<Turn>) {
    forall k: nat :: k < |turns| ==> TurnAt(codec, llm, toolReply, k, turns[k])
  }

  /** Request `k` carries the system prompt apart, translates the user message and the first `k`
      turns, and is well paired. */
  ghost predicate RequestAt(
      codec: Codec, system: string, user: string, budget: int, turns: seq<Turn>, k: nat, request: Body) {
    && k <= |turns| && GoodTurns(turns[..k])
    && request.messages == Translate(codec, Filter(History(system, user, turns[..k]), NotSystem()), [])
    && WellPaired(request.messages) && request.maxTokens == (if budget >= 1 then budget else 1)
    && request.system == if Blank(system) then None else Some(system)
  }

  ghost predicate Conversation(
      codec: Codec, system: string, user: string, budget: int, turns: seq<Turn>, requests: seq<Body>) {
    forall k: nat :: k < |requests| ==> RequestAt(codec, system, user, budget, turns, k, requests[k])
  }

  lemma {:induction false} MoreTurns(
      codec: Codec, system: string, user: string, budget: int, turns: seq<Turn>, t: Turn, requests: seq<Body>)
    requires Conversation(codec, system, user, budget, turns, requests)
    ensures Conversation(codec, system, user, budget, turns + [t], requests)
  {
    forall k: nat | k < |requests| ensures RequestAt(codec, system, user, budget, turns + [t], k, requests[k]) {
      assert RequestAt(codec, system, user, budget, turns, k, requests[k]);
      assert (turns + [t])[..k] == turns[..k];
    }
  }

  lemma {:induction false} TurnRecorded(system: string, user: string, turns: seq<Turn>, t: Turn)
    requires GoodTurns(turns) && GoodTurn(t)
    ensures GoodTurns(turns + [t])
    ensures History(system, user, turns + [t]) == History(system, user, turns) + TurnMessages(t)
  {
    TurnsAppend(turns, t);
  }

  lemma {:induction false} NextTurnAt(
      codec: Codec, llm: nat -> LlmOutcome, toolReply: (nat, nat) -> string, turns: seq<Turn>, t: Turn)
    requires TurnsAt(codec, llm, toolReply, turns) && TurnAt(codec, llm, toolReply, |turns|, t)
    ensures TurnsAt(codec, llm, toolReply, turns + [t])
  {
    var longer := turns + [t];
    forall k: nat | k < |longer| ensures TurnAt(codec, llm, toolReply, k, longer[k]) {
      if k < |turns| {
        assert TurnAt(codec, llm, toolReply, k, turns[k]);
      }
    }
  }

  /** Tokens of the first `n` calls. */
  function TokensUsed(llm: nat -> LlmOutcome, n: nat): int {
    if n == 0 then 0
    else
      TokensUsed(llm, n - 1) +
      (if llm(n - 1).Returned? then llm(n - 1).payload.inputTokens + llm(n - 1).payload.outputTokens else 0)
  }

  /** None of the first `n` turns started late. */
  predicate InTime(late: nat -> bool, n: nat) {
    n > 0 ==> !late(n) && InTime(late, n - 1)
  }

  /** The budget is not exceeded by the first `n` calls, nor by any part of them. */
  predicate WithinBudget(llm: nat -> LlmOutcome, n: nat) {
    TokensUsed(llm, n) <= MAX_TOKENS_PER_JOB && (n > 0 ==> WithinBudget(llm, n - 1))
  }

  /** What the checks have let pass before turn `n + 1`. */
  ghost predicate Metered(late: nat -> bool, llm: nat -> LlmOutcome, n: nat, tokens: int) {
    tokens == TokensUsed(llm, n) && InTime(late, n) && WithinBudget(llm, n)
  }

  /** One more call of a turn that was in time. */
  lemma {:induction false} MeterStep(late: nat -> bool, llm: nat -> LlmOutcome, n: nat, tokens: int)
    requires Metered(late, llm, n, tokens) && !late(n + 1) && llm(n).Returned?
    ensures var more := tokens + llm(n).payload.inputTokens + llm(n).payload.outputTokens;
            && TokensUsed(llm, n + 1) == more && InTime(late, n + 1)
            && (more <= MAX_TOKENS_PER_JOB ==> Metered(late, llm, n + 1, more))
  {
  }

  /** The turns are those of the model and its tools, and every request was that of its moment. */
  ghost predicate Told(
      codec: Codec, system: string, user: string, budget: int, llm: nat -> LlmOutcome, toolReply: (nat, nat) -> string,
      requests: seq<Body>, turns: seq<Turn>)
  {
    TurnsAt(codec, llm, toolReply, turns) && Conversation(codec, system, user, budget, turns, requests)
  }

  /** The history is that of the turns so far, and every request was that of its moment. */
  ghost predicate InStep(
      codec: Codec, system: string, user: string, budget: int, llm: nat -> LlmOutcome, toolReply: (nat, nat) -> string,
      messages: seq<Message>, requests: seq<Body>, turns: seq<Turn>)
  {
    && GoodTurns(turns) && messages == History(system, user, turns)
    && Told(codec, system, user, budget, llm, toolReply, requests, turns)
  }

  lemma {:induction false} SendHistory(
      codec: Codec, system: string, user: string, budget: int, llm: nat -> LlmOutcome, toolReply: (nat, nat) -> string,
      messages: seq<Message>, requests: seq<Body>, turns: seq<Turn>, body: Body)
    requires InStep(codec, system, user, budget, llm, toolReply, messages, requests, turns) && |requests| == |turns|
    requires body.messages == Translate(codec, Filter(messages, NotSystem()), [])
    requires body.system == SystemOf(messages) && body.maxTokens == if budget >= 1 then budget else 1
    ensures InStep(codec, system, user, budget, llm, toolReply, messages, requests + [body], turns)
  {
    NextRequestAt(codec, system, user, budget, turns, body);
    MoreRequests(codec, system, user, budget, turns, requests, body);
  }

  lemma {:induction false} NextRequestAt(
      codec: Codec, system: string, user: string, budget: int, turns: seq<Turn>, body: Body)
    requires GoodTurns(turns) && body.maxTokens == if budget >= 1 then budget else 1
    requires body.messages == Translate(codec, Filter(History(system, user, turns), NotSystem()), [])
    requires body.system == SystemOf(History(system, user, turns))
    ensures RequestAt(codec, system, user, budget, turns, |turns|, body)
  {
    RequestIsWellPaired(codec, system, user, turns);
    SystemOfHistory(system, user, turns);
    assert turns[..|turns|] == turns;
  }

  lemma {:induction false} MoreRequests(
      codec: Codec, system: string, user: string, budget: int, turns: seq<Turn>, requests: seq<Body>, body: Body)
    requires Conversation(codec, system, user, budget, turns, requests)
    requires RequestAt(codec, system, user, budget, turns, |requests|, body)
    ensures Conversation(codec, system, user, budget, turns, requests + [body])
  {
    var longer := requests + [body];
    forall k: nat | k < |longer| ensures RequestAt(codec, system, user, budget, turns, k, longer[k]) {
      if k < |requests| {
        assert RequestAt(codec, system, user, budget, turns, k, requests[k]);
      }
    }
  }

  /** The next request, built from the history as it is. */
  method SendRequest(
      codec: Codec, system: string, user: string, budget: int, ghost llm: nat -> LlmOutcome,
      ghost toolReply: (nat, nat) -> string, messages: seq<Message>, requests: seq<Body>, ghost turns: seq<Turn>)
    returns (more: seq<Body>)
    requires InStep(codec, system, user, budget, llm, toolReply, messages, requests, turns) && |requests| == |turns|
    ensures |more| == |requests| + 1 && more[..|requests|] == requests
    ensures InStep(codec, system, user, budget, llm, toolReply, messages, more, turns)
  {
    var body := BuildRequest(codec, messages, budget);
    SendHistory(codec, system, user, budget, llm, toolReply, messages, requests, turns, body);
    more := requests + [body];
  }

  /** The rest of a turn that calls tools: the reply and one tool message per call. */
  method RecordTurn(
      codec: Codec, system: string, user: string, budget: int, llm: nat -> LlmOutcome, toolReply: (nat, nat) -> string,
      messages: seq<Message>, message: Message, turn: nat, ghost requests: seq<Body>, ghost turns: seq<Turn>)
    returns (longer: seq<Message>, ghost more: seq<Turn>)
    requires InStep(codec, system, user, budget, llm, toolReply, messages, requests, turns)
    requires turn == |turns| + 1 && llm(|turns|).Returned?
    requires message == ReplyMessage(codec, llm(|turns|).payload.blocks) && message.toolCalls != []
    ensures |more| == |turns| + 1 && InStep(codec, system, user, budget, llm, toolReply, longer, requests, more)
  {
    ReplyCallsAreCalls(codec, llm(|turns|).payload.blocks);
    var replies, results := RunTools(message.toolCalls, turn, toolReply);
    ghost var t := Turn(message, results);
    TurnRecorded(system, user, turns, t);
    NextTurnAt(codec, llm, toolReply, turns, t);
    MoreTurns(codec, system, user, budget, turns, t, requests);
    longer := messages + ([message] + replies);
    more := turns + [t];
  }

  /** How the loop may end after this many requests, whole turns, calls and tokens: there are at most ten
      requests, tokens are those of the calls made, no turn before was late or over the budget, and every
      result has its cause. The separate limit of calls never ends it. */
  ghost predicate Ending(
      codec: Codec, late: nat -> bool, llm: nat -> LlmOutcome, result: Outcome,
      requests: nat, turns: nat, llmCalls: nat, totalTokens: int)
  {
    && requests <= MAX_TURNS && requests == llmCalls + (if result.LlmCallFailed? then 1 else 0)
    && totalTokens == TokensUsed(llm, llmCalls) && InTime(late, requests) && WithinBudget(llm, turns)
    && match result
       case TimedOut => late(turns + 1) && requests == turns < MAX_TURNS
       case LlmCallLimit => false
       case LlmCallFailed => llm(llmCalls).Raised?
       case TokenBudgetExceeded => totalTokens > MAX_TOKENS_PER_JOB
       case Answer(content) => AnswerAt(codec, llm, content, turns, llmCalls, totalTokens)
       case MaxTurnsReached => llmCalls == MAX_TURNS == turns
  }

  /** The answer is the text of a reply without tool calls, within the budget. */
  ghost predicate AnswerAt(
      codec: Codec, llm: nat -> LlmOutcome, content: Content, turns: nat, llmCalls: nat, totalTokens: int)
  {
    && totalTokens <= MAX_TOKENS_PER_JOB && llmCalls == turns + 1 && llm(turns).Returned?
    && ReplyMessage(codec, llm(turns).payload.blocks).toolCalls == []
    && content == ReplyMessage(codec, llm(turns).payload.blocks).content
  }

  /** So no request was sent late, and no earlier turn had used up the budget. */
  lemma {:induction false} EndingMeans(
      codec: Codec, late: nat -> bool, llm: nat -> LlmOutcome, result: Outcome,
      requests: nat, turns: nat, llmCalls: nat, totalTokens: int)
    requires Ending(codec, late, llm, result, requests, turns, llmCalls, totalTokens)
    ensures forall k: nat :: 1 <= k <= requests ==> !late(k)
    ensures forall k: nat :: k <= turns ==> TokensUsed(llm, k) <= 50_000
  {
    forall k: nat | 1 <= k <= requests ensures !late(k) {
      InTimeAt(late, requests, k);
    }
    forall k: nat | k <= turns ensures TokensUsed(llm, k) <= 50_000 {
      WithinBudgetAt(llm, turns, k);
    }
  }

  lemma {:induction false} InTimeAt(late: nat -> bool, n: nat, k: nat)
    requires InTime(late, n) && 1 <= k <= n
    ensures !late(k)
    decreases n
  {
    if k < n {
      InTimeAt(late, n - 1, k);
    }
  }

  lemma {:induction false} WithinBudgetAt(llm: nat -> LlmOutcome, n: nat, k: nat)
    requires WithinBudget(llm, n) && k <= n
    ensures TokensUsed(llm, k) <= 50_000
    decreases n
  {
    if k < n {
      WithinBudgetAt(llm, n - 1, k);
    }
  }

  lemma {:induction false} EndsBeforeCall(
      codec: Codec, late: nat -> bool, llm: nat -> LlmOutcome, n: nat, tokens: int)
    requires Metered(late, llm, n, tokens) && n <= MAX_TURNS
    ensures n < MAX_TURNS && late(n + 1) ==> Ending(codec, late, llm, TimedOut, n, n, n, tokens)
    ensures n == MAX_TURNS ==> Ending(codec, late, llm, MaxTurnsReached, n, n, n, tokens)
    ensures n < MAX_TURNS && !late(n + 1) && llm(n).Raised? ==>
              Ending(codec, late, llm, LlmCallFailed, n + 1, n, n, tokens)
  {
  }

  lemma {:induction false} EndsAfterCall(
      codec: Codec, late: nat -> bool, llm: nat -> LlmOutcome, n: nat, tokens: int, message: Message)
    requires Metered(late, llm, n, tokens) && n < MAX_TURNS && !late(n + 1) && llm(n).Returned?
    requires message == ReplyMessage(codec, llm(n).payload.blocks)
    ensures var more := tokens + llm(n).payload.inputTokens + llm(n).payload.outputTokens;
            if more > MAX_TOKENS_PER_JOB then
              Ending(codec, late, llm, TokenBudgetExceeded, n + 1, n, n + 1, more)
            else message.toolCalls == [] ==>
              Ending(codec, late, llm, Answer(message.content), n + 1, n, n + 1, more)
  {
    MeterStep(late, llm, n, tokens);
  }

  lemma {:induction false} OpeningInStep(
      codec: Codec, system: string, user: string, budget: int, late: nat -> bool, llm: nat -> LlmOutcome,
      toolReply: (nat, nat) -> string, messages: seq<Message>)
    requires messages == [Msg(System, Text(system), [], None), Msg(User, Text(user), [], None)]
    ensures InStep(codec, system, user, budget, llm, toolReply, messages, [], []) && Metered(late, llm, 0, 0)
  {
    assert messages == History(system, user, []);
  }

  /** The call of a turn, after `n` others: its tokens are counted, and the loop ends if it raised, if the
      tokens exceed the budget, or if the reply calls no tools. */
  method CallModel(codec: Codec, ghost late: nat -> bool, llm: nat -> LlmOutcome, n: nat, tokens: int)
    returns (end: Option<Outcome>, message: Message, llmCalls: nat, totalTokens: int)
    requires Metered(late, llm, n, tokens) && n < MAX_TURNS && !late(n + 1)
    ensures end.Some? ==> Ending(codec, late, llm, end.value, n + 1, n, llmCalls, totalTokens)
    ensures end.None? ==>
              && llmCalls == n + 1 && Metered(late, llm, n + 1, totalTokens) && llm(n).Returned?
              && message == ReplyMessage(codec, llm(n).payload.blocks) && message.toolCalls != []
  {
    llmCalls, totalTokens := n, tokens;
    var outcome := llm(llmCalls);
    if outcome.Raised? {
      EndsBeforeCall(codec, late, llm, n, tokens);
      return Some(LlmCallFailed), Msg(User, Text(""), [], None), llmCalls, totalTokens;
    }
    MeterStep(late, llm, n, tokens);
    llmCalls := llmCalls + 1;
    var reply := FromAnthropicResponse(codec, outcome.payload);
    totalTokens := totalTokens + reply.totalTokens;
    message := reply.message;
    EndsAfterCall(codec, late, llm, n, tokens, message);
    if totalTokens > MAX_TOKENS_PER_JOB {
      return Some(TokenBudgetExceeded), message, llmCalls, totalTokens;
    }
    if message.toolCalls == [] {
      return Some(Answer(message.content)), message, llmCalls, totalTokens;
    }
    end := None;
  }

  /** The history and counter skeleton of the loop. `late(turn)` is the wall-clock check,
      `llm(k)` the outcome of the k-th call, `toolReply(turn, j)` the text of a tool's result.
      Request `k` carries the opening and the first `k` turns, each the reply of its call and one
      result per tool call, and is well paired; and every way to end has its cause, the first that
      occurs. */
  method RunLoop(
      codec: Codec, system: string, user: string, budget: int,
      late: nat -> bool, llm: nat -> LlmOutcome, toolReply: (nat, nat) -> string)
    returns (result: Outcome, requests: seq<Body>, llmCalls: nat, totalTokens: int, ghost turns: seq<Turn>)
    ensures Told(codec, system, user, budget, llm, toolReply, requests, turns)
    ensures |turns| <= |requests| <= |turns| + 1
    ensures Ending(codec, late, llm, result, |requests|, |turns|, llmCalls, totalTokens)
  {
    turns := [];
    var messages := [Msg(System, Text(system), [], None), Msg(User, Text(user), [], None)];
    requests, llmCalls, totalTokens := [], 0, 0;
    var turn := 0;
    OpeningInStep(codec, system, user, budget, late, llm, toolReply, messages);
    while turn < MAX_TURNS
      invariant turn == llmCalls == |requests| == |turns| <= MAX_TURNS
      invariant InStep(codec, system, user, budget, llm, toolReply, messages, requests, turns)
      invariant Metered(late, llm, turn, totalTokens)
    {
      EndsBeforeCall(codec, late, llm, turn, totalTokens);
      turn := turn + 1;
      if late(turn) {
        return TimedOut, requests, llmCalls, totalTokens, turns;
      }
      if llmCalls >= MAX_LLM_CALLS {
        return LlmCallLimit, requests, llmCalls, totalTokens, turns;
      }
      requests := SendRequest(codec, system, user, budget, llm, toolReply, messages, requests, turns);
      var end, message;
      end, message, llmCalls, totalTokens := CallModel(codec, late, llm, llmCalls, totalTokens);
      if end.Some? {
        return end.value, requests, llmCalls, totalTokens, turns;
      }
      messages, turns := RecordTurn(
        codec, system, user, budget, llm, toolReply, messages, message, turn, requests, turns);
    }
    EndsBeforeCall(codec, late, llm, turn, totalTokens);
    return MaxTurnsReached, requests, llmCalls, totalTokens, turns;
  }
}
