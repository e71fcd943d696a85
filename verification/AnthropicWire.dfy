/** Translation between the OpenAI-shaped history and the Anthropic Messages API
    (runtime/anthropic_wire.py). */
module AnthropicWire {
  import opened Common

  datatype Json =
    | Null
    | Bool(b: bool)
    | Number(n: int)
    | Str(s: string)
    | Array(items: seq<Json>)
    | Object(fields: map<string, Json>)

  /** The JSON library, as far as the translator uses it. */
  datatype Codec = Codec(dumps: Json -> string, loads: string -> Option<Json>, dumpContent: Content -> string)

  /** An element of a list-valued `content`; `NotDict` is anything that is not an object. */
  datatype Block =
    | TextBlock(text: string)
    | ToolUse(id: string, name: string, input: Json)
    | ToolResult(toolUseId: string, content: string)
    | OtherBlock(json: Json)
    | NotDict(json: Json)

  datatype Content =
    | Absent
    | Text(text: string)
    | Blocks(blocks: seq<Block>)
    | OtherContent(json: Json)

  datatype Args = ArgsMissing | ArgsText(text: string) | ArgsJson(json: Json)

  datatype ToolCall = Call(id: Option<string>, name: Option<string>, args: Args) | CallNotDict

  datatype Role = System | User | Assistant | Tool | OtherRole(name: string)

  datatype Message =
    | Msg(role: Role, content: Content, toolCalls: seq<ToolCall>, toolCallId: Option<string>)
    | MessageNotDict

  // ----- Python's notion of an empty value -------------------------------------------------

  predicate FalsyJson(j: Json) {
    match j
    case Null => true
    case Bool(b) => !b
    case Number(n) => n == 0
    case Str(s) => s == ""
    case Array(items) => items == []
    case Object(fields) => fields == map[]
  }

  predicate Falsy(c: Content) {
    match c
    case Absent => true
    case Text(t) => t == ""
    case Blocks(bs) => bs == []
    case OtherContent(j) => FalsyJson(j)
  }

  /** The characters `str.strip` removes. */
  predicate IsSpace(c: char) {
    var n := c as int;
    9 <= n <= 13 || 28 <= n <= 32 || n == 0x85 || n == 0xA0 || n == 0x1680 || 0x2000 <= n <= 0x200A
    || n == 0x2028 || n == 0x2029 || n == 0x202F || n == 0x205F || n == 0x3000
  }

  /** All of them, in order. */
  const SPACES := "\t\n\U{b}\U{c}\r\U{1c}\U{1d}\U{1e}\U{1f} \U{85}\U{a0}\U{1680}"
    + "\U{2000}\U{2001}\U{2002}\U{2003}\U{2004}\U{2005}\U{2006}\U{2007}\U{2008}\U{2009}\U{200a}"
    + "\U{2028}\U{2029}\U{202f}\U{205f}\U{3000}"

  lemma {:induction false} SpacesAre(c: char)
    ensures IsSpace(c) <==> c in SPACES
  {
    assert |SPACES| == 29;
    if IsSpace(c) {
      var n := c as int;
      var i := if n <= 13 then n - 9 else if n <= 32 then n - 23 else if n == 0x85 then 10 else if n == 0xA0 then 11
               else if n == 0x1680 then 12 else if n <= 0x200A then n - 0x2000 + 13 else if n == 0x2028 then 24
               else if n == 0x2029 then 25 else if n == 0x202F then 26 else if n == 0x205F then 27 else 28;
      assert SPACES[i] == c;
    }
  }

  predicate Blank(s: string) {
    forall i :: 0 <= i < |s| ==> IsSpace(s[i])
  }

  function Or(o: Option<string>, default: string): string {
    if o.Some? && o.value != "" then o.value else default
  }

  function Join(sep: string, parts: seq<string>): string {
    if parts == [] then ""
    else if |parts| == 1 then parts[0]
    else parts[0] + sep + Join(sep, parts[1..])
  }

  /** Where part `i` of a joined text starts; for `i == |parts|`, where another part would. */
  function Offset(sep: string, parts: seq<string>, i: nat): nat
    requires i <= |parts|
  {
    if i == 0 then 0 else Offset(sep, parts, i - 1) + |parts[i - 1]| + |sep|
  }

  /** Part `i` stands in the text at its place, with the separator before it unless it is the first. */
  predicate StandsAt(sep: string, parts: seq<string>, text: string, i: nat)
    requires i < |parts|
  {
    var at := Offset(sep, parts, i);
    && at + |parts[i]| <= |text| && text[at..at + |parts[i]|] == parts[i]
    && (i > 0 ==> |sep| <= at && text[at - |sep|..at] == sep)
  }

  /** The text is made of all the parts in order and the separators between them, and of nothing else. */
  ghost predicate LaidOut(sep: string, parts: seq<string>, text: string) {
    && (parts == [] ==> text == "")
    && (parts != [] ==> |text| + |sep| == Offset(sep, parts, |parts|))
    && forall i: nat :: i < |parts| ==> StandsAt(sep, parts, text, i)
  }

  lemma {:induction false} JoinAppend(sep: string, a: seq<string>, b: seq<string>)
    requires a != [] && b != []
    ensures Join(sep, a + b) == Join(sep, a) + sep + Join(sep, b)
  {
    if |a| == 1 {
      assert (a + b)[1..] == b;
    } else {
      assert (a + b)[1..] == a[1..] + b;
      JoinAppend(sep, a[1..], b);
      var x, y := Join(sep, a[1..]), Join(sep, b);
      assert a[0] + sep + (x + sep + y) == (a[0] + sep + x) + sep + y;
    }
  }

  lemma {:induction false} OffsetAppend(sep: string, parts: seq<string>, last: string, i: nat)
    requires i <= |parts|
    ensures Offset(sep, parts + [last], i) == Offset(sep, parts, i)
  {
    if i > 0 {
      OffsetAppend(sep, parts, last, i - 1);
    }
  }

  lemma {:induction false} StandsLonger(sep: string, parts: seq<string>, text: string, last: string, i: nat)
    requires i < |parts| && StandsAt(sep, parts, text, i)
    ensures StandsAt(sep, parts + [last], text + sep + last, i)
  {
    OffsetAppend(sep, parts, last, i);
    var at, longer := Offset(sep, parts, i), text + sep + last;
    assert longer[at..at + |parts[i]|] == text[at..at + |parts[i]|];
    if i > 0 {
      assert longer[at - |sep|..at] == text[at - |sep|..at];
    }
  }

  lemma {:induction false} LaidOutAppend(sep: string, parts: seq<string>, text: string, last: string)
    requires parts != [] && LaidOut(sep, parts, text)
    ensures LaidOut(sep, parts + [last], text + sep + last)
  {
    var more, longer, n := parts + [last], text + sep + last, |parts|;
    OffsetAppend(sep, parts, last, n);
    forall i: nat | i < |more| ensures StandsAt(sep, more, longer, i) {
      if i < n {
        StandsLonger(sep, parts, text, last, i);
      } else {
        var at := Offset(sep, more, n);
        assert at == |text| + |sep|;
        assert longer[at..at + |last|] == last && longer[at - |sep|..at] == sep;
      }
    }
  }

  /** `sep.join(parts)` lays out all the parts. */
  lemma {:induction false} JoinLaysOut(sep: string, parts: seq<string>)
    ensures LaidOut(sep, parts, Join(sep, parts))
    decreases |parts|
  {
    if |parts| == 1 {
      assert Offset(sep, parts, 1) == |parts[0]| + |sep|;
      assert StandsAt(sep, parts, parts[0], 0);
    } else if parts != [] {
      var front, last := parts[..|parts| - 1], parts[|parts| - 1];
      assert parts == front + [last];
      JoinLaysOut(sep, front);
      JoinAppend(sep, front, [last]);
      LaidOutAppend(sep, front, Join(sep, front), last);
    }
  }

  /** That determines the text. */
  lemma {:induction false} LaidOutUnique(sep: string, parts: seq<string>, t: string, u: string)
    requires LaidOut(sep, parts, t) && LaidOut(sep, parts, u)
    ensures t == u
  {
    if parts != [] {
      SameUpTo(sep, parts, t, u, |parts| - 1);
      assert StandsAt(sep, parts, t, |parts| - 1) && StandsAt(sep, parts, u, |parts| - 1);
      assert t == t[..|t|] && u == u[..|u|];
    }
  }

  lemma {:induction false} SameUpTo(sep: string, parts: seq<string>, t: string, u: string, i: nat)
    requires LaidOut(sep, parts, t) && LaidOut(sep, parts, u) && i < |parts|
    ensures var end := Offset(sep, parts, i) + |parts[i]|;
            end <= |t| && end <= |u| && t[..end] == u[..end]
    decreases i
  {
    assert StandsAt(sep, parts, t, i) && StandsAt(sep, parts, u, i);
    var at := Offset(sep, parts, i);
    var end := at + |parts[i]|;
    if i > 0 {
      SameUpTo(sep, parts, t, u, i - 1);
      SameSlices(t, u, Offset(sep, parts, i - 1) + |parts[i - 1]|, at, end);
    }
  }

  lemma {:induction false} SameSlices(t: string, u: string, a: nat, b: nat, c: nat)
    requires a <= b <= c <= |t| && c <= |u|
    requires t[..a] == u[..a] && t[a..b] == u[a..b] && t[b..c] == u[b..c]
    ensures t[..c] == u[..c]
  {
    assert t[..c] == t[..a] + t[a..b] + t[b..c];
    assert u[..c] == u[..a] + u[a..b] + u[b..c];
  }

  // ----- one message -----------------------------------------------------------------------

  function ToolResultOf(codec: Codec, m: Message): Block
    requires m.Msg?
  {
    ToolResult(Or(m.toolCallId, "unknown"),
               if m.content.Text? then m.content.text else codec.dumpContent(m.content))
  }

  function ParsedArgs(codec: Codec, args: Args): Json {
    var parsed := match args
      case ArgsMissing => Object(map[])
      case ArgsText(t) => (match codec.loads(if t == "" then "{}" else t)
                           case Some(j) => j
                           case None => Object(map[]))
      case ArgsJson(j) => j;
    if parsed.Object? then parsed else Object(map[])
  }

  function Uses(codec: Codec, calls: seq<ToolCall>): seq<Block> {
    if calls == [] then []
    else
      var rest := Uses(codec, calls[1..]);
      match calls[0]
      case CallNotDict => rest
      case Call(id, name, args) => [ToolUse(Or(id, "unknown"), Or(name, ""), ParsedArgs(codec, args))] + rest
  }

  function IsDict(): Block -> bool {
    (b: Block) => !b.NotDict?
  }

  function TurnText(c: Content): seq<Block> {
    match c
    case Text(t) => if Blank(t) then [] else [TextBlock(t)]
    case Blocks(bs) => Filter(bs, IsDict())
    case Absent => []
    case OtherContent(_) => []
  }

  predicate ToolTurn(m: Message) {
    m.Msg? && m.role.Assistant? && m.toolCalls != []
  }

  function TurnBlocks(codec: Codec, m: Message): seq<Block>
    requires ToolTurn(m)
  {
    TurnText(m.content) + Uses(codec, m.toolCalls)
  }

  /** A tool result answers the call it names, or "unknown", with its text, or the printed form of any
      other content. */
  lemma {:induction false} ToolResultMeans(codec: Codec, m: Message)
    requires m.Msg?
    ensures ToolResultOf(codec, m).ToolResult?
    ensures m.toolCallId.Some? && m.toolCallId.value != "" ==> ToolResultOf(codec, m).toolUseId == m.toolCallId.value
    ensures m.toolCallId.None? || m.toolCallId.value == "" ==> ToolResultOf(codec, m).toolUseId == "unknown"
    ensures m.content.Text? ==> m.content == Text(ToolResultOf(codec, m).content)
    ensures !m.content.Text? ==> ToolResultOf(codec, m).content == codec.dumpContent(m.content)
  {
  }

  function TextOrEmpty(text: string): (t: string)
    ensures text == "" ==> t == "{}"
    ensures text != "" ==> t == text
  {
    if text == "" then "{}" else text
  }

  /** The input of a tool use is the object in the arguments, given or parsed, and otherwise empty. */
  lemma {:induction false} ArgsMean(codec: Codec, args: Args, j: Json)
    requires j.Object?
    ensures (args == ArgsJson(j) || (args.ArgsText? && codec.loads(TextOrEmpty(args.text)) == Some(j))) ==>
              ParsedArgs(codec, args) == j
    ensures ParsedArgs(codec, args).Object?
    ensures args.ArgsMissing? || (args.ArgsJson? && !args.json.Object?) ==> ParsedArgs(codec, args) == Object(map[])
    ensures (args.ArgsText? && (codec.loads(TextOrEmpty(args.text)).None?
                                || !codec.loads(TextOrEmpty(args.text)).value.Object?)) ==>
              ParsedArgs(codec, args) == Object(map[])
  {
  }

  /** What a message that is not a tool result adds to the translation. */
  function Emit(codec: Codec, m: Message): seq<Message>
    requires m.Msg?
  {
    if ToolTurn(m) then [Msg(Assistant, Blocks(TurnBlocks(codec, m)), [], None)]
    else if m.role.Assistant? && Falsy(m.content) then []
    else [m]
  }

  /** Only assistant turns that call no tools and have nothing to say are dropped: no content, an empty
      text or list, or a JSON value that counts as empty. */
  lemma {:induction false} DroppedIff(codec: Codec, m: Message)
    requires m.Msg?
    ensures Emit(codec, m) == [] <==>
            && m.role.Assistant? && m.toolCalls == []
            && (|| m.content in {Absent, Text(""), Blocks([])}
                || m.content in {OtherContent(Null), OtherContent(Bool(false)), OtherContent(Number(0)),
                                 OtherContent(Str("")), OtherContent(Array([])), OtherContent(Object(map[]))})
  {
  }

  /** Buffered tool results become one user message. */
  function Flush(pending: seq<Block>): seq<Message> {
    if pending == [] then [] else [Msg(User, Blocks(pending), [], None)]
  }

  // ----- the translation ---------------------------------------------------------------------

  function Translate(codec: Codec, messages: seq<Message>, pending: seq<Block>): seq<Message>
    decreases |messages|
  {
    if messages == [] then Flush(pending)
    else
      var m, rest := messages[0], messages[1..];
      if m.MessageNotDict? then Translate(codec, rest, pending)
      else if m.role.Tool? then Translate(codec, rest, pending + [ToolResultOf(codec, m)])
      else Flush(pending) + Emit(codec, m) + Translate(codec, rest, [])
  }

  datatype Progress = Progress(out: seq<Message>, pending: seq<Block>)

  /** One round of the loop. */
  function Absorb(codec: Codec, p: Progress, m: Message): Progress {
    if m.MessageNotDict? then p
    else if m.role.Tool? then p.(pending := p.pending + [ToolResultOf(codec, m)])
    else Progress(p.out + Flush(p.pending) + Emit(codec, m), [])
  }

  function After(codec: Codec, messages: seq<Message>): Progress {
    if messages == [] then Progress([], [])
    else Absorb(codec, After(codec, messages[..|messages| - 1]), messages[|messages| - 1])
  }

  lemma {:induction false} AbsorbTranslates(codec: Codec, p: Progress, m: Message, rest: seq<Message>)
    ensures p.out + Translate(codec, [m] + rest, p.pending) ==
            Absorb(codec, p, m).out + Translate(codec, rest, Absorb(codec, p, m).pending)
  {
    assert ([m] + rest)[1..] == rest;
  }

  lemma {:induction false} AfterTranslates(codec: Codec, a: seq<Message>, b: seq<Message>)
    ensures Translate(codec, a + b, []) == After(codec, a).out + Translate(codec, b, After(codec, a).pending)
    decreases |a|
  {
    if a == [] {
      assert a + b == b;
    } else {
      var front, m := a[..|a| - 1], a[|a| - 1];
      assert a + b == front + ([m] + b);
      AfterTranslates(codec, front, [m] + b);
      AbsorbTranslates(codec, After(codec, front), m, b);
    }
  }

  method ToAnthropicMessages(codec: Codec, messages: seq<Message>) returns (out: seq<Message>)
    ensures out == Translate(codec, messages, [])
  {
    out := [];
    var pending: seq<Block> := [];
    for i := 0 to |messages|
      invariant Progress(out, pending) == After(codec, messages[..i])
    {
      var m := messages[i];
      assert messages[..i + 1][..i] == messages[..i];
      if m.MessageNotDict? {
        continue;
      }
      if m.role.Tool? {
        pending := pending + [ToolResultOf(codec, m)];
        continue;
      }
      if pending != [] {
        out := out + [Msg(User, Blocks(pending), [], None)];
        pending := [];
      }
      if ToolTurn(m) {
        out := out + [Msg(Assistant, Blocks(TurnBlocks(codec, m)), [], None)];
      } else if !(m.role.Assistant? && Falsy(m.content)) {
        out := out + [m];
      }
    }
    assert messages[..|messages|] + [] == messages;
    AfterTranslates(codec, messages[..|messages|], []);
    if pending != [] {
      out := out + [Msg(User, Blocks(pending), [], None)];
    }
  }

  /** `system` messages go to a separate parameter; their non-blank texts are joined. */
  function NotSystem(): Message -> bool {
    (m: Message) => !(m.Msg? && m.role.System?)
  }

  function SystemParts(messages: seq<Message>): seq<string> {
    if messages == [] then [] else SystemPart(messages[0]) + SystemParts(messages[1..])
  }

  function SystemPart(m: Message): seq<string> {
    if m.Msg? && m.role.System? && m.content.Text? && !Blank(m.content.text) then [m.content.text] else []
  }

  lemma {:induction false} SystemPartsAppend(a: seq<Message>, m: Message)
    ensures SystemParts(a + [m]) == SystemParts(a) + SystemPart(m)
  {
    if a != [] {
      assert (a + [m])[1..] == a[1..] + [m];
      SystemPartsAppend(a[1..], m);
    }
  }

  /** What the loop adds for one more message. */
  lemma {:induction false} SplitStep(messages: seq<Message>, i: nat)
    requires i < |messages|
    ensures SystemParts(messages[..i + 1]) == SystemParts(messages[..i]) + SystemPart(messages[i])
    ensures Filter(messages[..i + 1], NotSystem()) ==
            Filter(messages[..i], NotSystem()) + (if NotSystem()(messages[i]) then [messages[i]] else [])
  {
    var m := messages[i];
    assert messages[..i + 1] == messages[..i] + [m];
    SystemPartsAppend(messages[..i], m);
    FilterOneMore(messages[..i], m, NotSystem());
  }

  method SplitSystem(messages: seq<Message>) returns (system: string, rest: seq<Message>)
    ensures system == Join("\n\n", SystemParts(messages)) && LaidOut("\n\n", SystemParts(messages), system)
    ensures rest == Filter(messages, NotSystem())
  {
    var parts: seq<string> := [];
    rest := [];
    for i := 0 to |messages|
      invariant parts == SystemParts(messages[..i])
      invariant rest == Filter(messages[..i], NotSystem())
    {
      var m := messages[i];
      SplitStep(messages, i);
      if m.Msg? && m.role.System? {
        if m.content.Text? && !Blank(m.content.text) {
          parts := parts + [m.content.text];
        }
      } else {
        rest := rest + [m];
      }
    }
    assert messages[..|messages|] == messages;
    system := Join("\n\n", parts);
    JoinLaysOut("\n\n", parts);
  }

  /** Which texts those are: those of the system messages that have a character besides spaces. */
  lemma {:induction false} SystemPartIff(messages: seq<Message>, p: string)
    ensures p in SystemParts(messages) <==>
            exists m :: m in messages && m.Msg? && m.role.System? && m.content == Text(p)
                        && exists i :: 0 <= i < |p| && !IsSpace(p[i])
  {
    if messages != [] {
      SystemPartIff(messages[1..], p);
      assert forall m :: m in messages <==> m == messages[0] || m in messages[1..];
    }
  }

  // ----- the request ---------------------------------------------------------------------------

  /** What is posted, without the model id and the tool schemas. */
  datatype Body = Body(maxTokens: int, messages: seq<Message>, system: Option<string>)

  /** The `system` parameter: absent when no system message has text. */
  function SystemOf(messages: seq<Message>): Option<string> {
    var parts := SystemParts(messages);
    if parts == [] then None else Some(Join("\n\n", parts))
  }

  lemma {:induction false} SystemPartsAreText(messages: seq<Message>)
    ensures forall p :: p in SystemParts(messages) ==> !Blank(p)
  {
    if messages != [] {
      SystemPartsAreText(messages[1..]);
    }
  }

  /** Joining non-blank texts gives a text: the test of the joined text is a test for having any. */
  lemma {:induction false} JoinedIsText(sep: string, parts: seq<string>)
    requires forall p :: p in parts ==> !Blank(p)
    ensures Join(sep, parts) == "" <==> parts == []
  {
    if parts != [] {
      assert parts[0] in parts && parts[0] != "";
    }
  }

  method BuildRequest(codec: Codec, messages: seq<Message>, maxTokens: int) returns (b: Body)
    ensures b.messages == Translate(codec, Filter(messages, NotSystem()), [])
    ensures b.system == SystemOf(messages) && (b.system.None? <==> SystemParts(messages) == [])
    ensures b.system.Some? ==> LaidOut("\n\n", SystemParts(messages), b.system.value)
    ensures b.maxTokens == if maxTokens >= 1 then maxTokens else 1
  {
    var system, conversation := SplitSystem(messages);
    var translated := ToAnthropicMessages(codec, conversation);
    SystemPartsAreText(messages);
    JoinedIsText("\n\n", SystemParts(messages));
    b := Body(if maxTokens > 1 then maxTokens else 1, translated, if system != "" then Some(system) else None);
  }

  /** No message of a request has the system or the tool role, or calls tools in the history's way. */
  lemma {:induction false} RequestRoles(codec: Codec, messages: seq<Message>, pending: seq<Block>)
    requires forall m :: m in messages ==> NotSystem()(m)
    ensures forall m :: m in Translate(codec, messages, pending) ==> Settled(m) && NotSystem()(m)
    decreases |messages|
  {
    TranslationIsSettled(codec, messages, pending);
    if messages != [] {
      var m, rest := messages[0], messages[1..];
      assert forall x :: x in rest ==> x in messages;
      assert m in messages;
      if m.MessageNotDict? {
        RequestRoles(codec, rest, pending);
      } else if m.role.Tool? {
        RequestRoles(codec, rest, pending + [ToolResultOf(codec, m)]);
      } else {
        RequestRoles(codec, rest, []);
      }
    }
  }

  // ----- idempotence ---------------------------------------------------------------------------

  /** A message the translator would neither rewrite nor buffer. */
  predicate Settled(m: Message) {
    m.Msg? && !m.role.Tool? && !ToolTurn(m)
  }

  function Speaks(): Message -> bool {
    (m: Message) => !(m.Msg? && m.role.Assistant? && Falsy(m.content))
  }

  lemma {:induction false} TranslationIsSettled(codec: Codec, messages: seq<Message>, pending: seq<Block>)
    ensures forall m :: m in Translate(codec, messages, pending) ==> Settled(m)
    decreases |messages|
  {
    if messages != [] {
      var m, rest := messages[0], messages[1..];
      if m.MessageNotDict? {
        TranslationIsSettled(codec, rest, pending);
      } else if m.role.Tool? {
        TranslationIsSettled(codec, rest, pending + [ToolResultOf(codec, m)]);
      } else {
        TranslationIsSettled(codec, rest, []);
      }
    }
  }

  lemma {:induction false} TranslateSettled(codec: Codec, messages: seq<Message>)
    requires forall m :: m in messages ==> Settled(m)
    ensures Translate(codec, messages, []) == Filter(messages, Speaks())
  {
    if messages != [] {
      assert messages[0] in messages;
      TranslateSettled(codec, messages[1..]);
    }
  }

  /** A tool turn that leaves at least one block: a tool call that is an object, text that is
      not blank, or an object in a list content. */
  predicate LeavesBlocks(m: Message) {
    ToolTurn(m) ==>
      || (exists c :: c in m.toolCalls && c.Call?)
      || (m.content.Text? && !Blank(m.content.text))
      || (m.content.Blocks? && exists b :: b in m.content.blocks && !b.NotDict?)
  }

  lemma {:induction false} UsesEmptyIff(codec: Codec, calls: seq<ToolCall>)
    ensures Uses(codec, calls) == [] <==> forall c :: c in calls ==> c.CallNotDict?
  {
    if calls != [] {
      UsesEmptyIff(codec, calls[1..]);
      if calls[0].Call? {
        assert calls[0] in calls;
      }
    }
  }

  lemma {:induction false} LeavesBlocksIff(codec: Codec, m: Message)
    requires ToolTurn(m)
    ensures LeavesBlocks(m) <==> TurnBlocks(codec, m) != []
  {
    UsesEmptyIff(codec, m.toolCalls);
    if m.content.Blocks? {
      var kept := Filter(m.content.blocks, IsDict());
      assert kept != [] ==> kept[0] in kept;
    }
  }

  lemma {:induction false} SilentOnlyFromEmptyTurns(codec: Codec, messages: seq<Message>, pending: seq<Block>)
    ensures (forall m :: m in Translate(codec, messages, pending) ==> Speaks()(m)) <==>
            (forall m :: m in messages ==> LeavesBlocks(m))
    decreases |messages|
  {
    if messages != [] {
      var m, rest := messages[0], messages[1..];
      assert forall x :: x in messages <==> x == m || x in rest;
      if m.MessageNotDict? {
        SilentOnlyFromEmptyTurns(codec, rest, pending);
      } else if m.role.Tool? {
        SilentOnlyFromEmptyTurns(codec, rest, pending + [ToolResultOf(codec, m)]);
      } else {
        SilentOnlyFromEmptyTurns(codec, rest, []);
        EmitSpeaksIff(codec, m);
        var front := Flush(pending) + Emit(codec, m);
        assert forall x :: x in Translate(codec, messages, pending) <==> x in front || x in Translate(codec, rest, []);
      }
    }
  }

  lemma {:induction false} EmitSpeaksIff(codec: Codec, m: Message)
    requires m.Msg? && !m.role.Tool?
    ensures (forall x :: x in Emit(codec, m) ==> Speaks()(x)) <==> LeavesBlocks(m)
  {
    if ToolTurn(m) {
      LeavesBlocksIff(codec, m);
      assert Emit(codec, m)[0] in Emit(codec, m);
    }
  }

  /** Translating twice is translating once, exactly when no tool turn of the history is left
      without any block; in particular whenever every tool call is an object. */
  lemma {:induction false} IdempotentIff(codec: Codec, messages: seq<Message>)
    ensures Translate(codec, Translate(codec, messages, []), []) == Translate(codec, messages, []) <==>
            (forall m :: m in messages ==> LeavesBlocks(m))
  {
    var out := Translate(codec, messages, []);
    TranslationIsSettled(codec, messages, []);
    TranslateSettled(codec, out);
    SilentOnlyFromEmptyTurns(codec, messages, []);
    if forall m :: m in out ==> Speaks()(m) {
      FilterAll(out, Speaks());
    } else {
      var m :| m in out && !Speaks()(m);
      assert m !in Filter(out, Speaks());
    }
  }

  // ----- order ---------------------------------------------------------------------------------

  datatype Item = Item(role: Role, block: Block)

  function Tagged(role: Role, blocks: seq<Block>): seq<Item> {
    if blocks == [] then [] else [Item(role, blocks[0])] + Tagged(role, blocks[1..])
  }

  /** The items a translated message shows, in order. */
  function Shown(m: Message): seq<Item> {
    if m.MessageNotDict? then []
    else match m.content
      case Absent => []
      case Text(t) => [Item(m.role, TextBlock(t))]
      case Blocks(bs) => Tagged(m.role, bs)
      case OtherContent(j) => [Item(m.role, OtherBlock(j))]
  }

  function ShownAll(messages: seq<Message>): seq<Item> {
    if messages == [] then [] else Shown(messages[0]) + ShownAll(messages[1..])
  }

  /** The items a history message carries, in order: a tool reply is one result of the user, a
      tool turn is its non-blank text followed by one use per call, an assistant turn without
      content carries nothing, and every other message carries its content as it stands. */
  function Carried(codec: Codec, m: Message): seq<Item> {
    if m.MessageNotDict? then []
    else if m.role.Tool? then [Item(User, ToolResultOf(codec, m))]
    else if ToolTurn(m) then Tagged(Assistant, TurnText(m.content)) + Tagged(Assistant, Uses(codec, m.toolCalls))
    else if m.role.Assistant? && Falsy(m.content) then []
    else Shown(m)
  }

  function CarriedAll(codec: Codec, messages: seq<Message>): seq<Item> {
    if messages == [] then [] else Carried(codec, messages[0]) + CarriedAll(codec, messages[1..])
  }

  lemma {:induction false} TaggedAppend(role: Role, a: seq<Block>, b: seq<Block>)
    ensures Tagged(role, a + b) == Tagged(role, a) + Tagged(role, b)
  {
    if a == [] {
      assert a + b == b;
    } else {
      assert (a + b)[1..] == a[1..] + b;
      TaggedAppend(role, a[1..], b);
    }
  }

  lemma {:induction false} ShownAppend(a: seq<Message>, b: seq<Message>)
    ensures ShownAll(a + b) == ShownAll(a) + ShownAll(b)
  {
    if a == [] {
      assert a + b == b;
    } else {
      assert (a + b)[1..] == a[1..] + b;
      ShownAppend(a[1..], b);
    }
  }

  lemma {:induction false} EmitShows(codec: Codec, m: Message)
    requires m.Msg? && !m.role.Tool?
    ensures ShownAll(Emit(codec, m)) == Carried(codec, m)
  {
    if ToolTurn(m) {
      TaggedAppend(Assistant, TurnText(m.content), Uses(codec, m.toolCalls));
    }
  }

  lemma {:induction false} TranslationShows(codec: Codec, messages: seq<Message>, pending: seq<Block>)
    ensures ShownAll(Translate(codec, messages, pending)) == Tagged(User, pending) + CarriedAll(codec, messages)
    decreases |messages|
  {
    if messages != [] {
      var m, rest := messages[0], messages[1..];
      if m.MessageNotDict? {
        TranslationShows(codec, rest, pending);
      } else if m.role.Tool? {
        var r := ToolResultOf(codec, m);
        TranslationShows(codec, rest, pending + [r]);
        TaggedAppend(User, pending, [r]);
        assert Tagged(User, [r]) == [Item(User, r)];
      } else {
        TranslationShows(codec, rest, []);
        EmitShows(codec, m);
        ShownAppend(Flush(pending), Emit(codec, m));
        ShownAppend(Flush(pending) + Emit(codec, m), Translate(codec, rest, []));
      }
    }
  }

  /** The translation shows exactly the items the history carries, in the same order. */
  lemma {:induction false} OrderPreserved(codec: Codec, messages: seq<Message>)
    ensures ShownAll(Translate(codec, messages, [])) == CarriedAll(codec, messages)
  {
    TranslationShows(codec, messages, []);
  }
}
