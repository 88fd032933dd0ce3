/** The OpenAI adapter: a history of block messages flattened to chat messages, and the
    completion read back as one. */
module OpenAI {
  import opened Seqs
  import opened Wrappers
  import opened AgentLoop
  import opened AgentTheorems

  datatype FunctionCall = FunctionCall(id: string, name: string, arguments: string)

  datatype Chat =
    | SystemMsg(text: string)
    | UserMsg(text: string)
    | ToolMsg(text: string, id: string)
    | AssistantMsg(text: string, calls: seq<FunctionCall>)

  // ---- flattening -----------------------------------------------------------

  function Joined(system: seq<string>): string {
    if |system| <= 1 then (if system == [] then "" else system[0])
    else Joined(system[..|system| - 1]) + "\n\n" + system[|system| - 1]
  }

  function SaidText(content: seq<Block>): string {
    if content == [] then ""
    else SaidText(content[..|content| - 1]) + if content[|content| - 1].Text? then content[|content| - 1].text else ""
  }

  function Calls(content: seq<Block>): seq<FunctionCall> {
    if content == [] then []
    else
      var b := content[|content| - 1];
      Calls(content[..|content| - 1]) + if b.ToolUse? then [FunctionCall(b.id, b.name, b.input)] else []
  }

  function UserMsgs(content: seq<Block>): seq<Chat> {
    if content == [] then []
    else
      UserMsgs(content[..|content| - 1])
      + match content[|content| - 1]
        case Text(t) => [UserMsg(t)]
        case ToolResult(id, t, _) => [ToolMsg(t, id)]
        case ToolUse(_, _, _) => []
  }

  function FlattenOne(m: Msg): seq<Chat> {
    match m.role
    case User => UserMsgs(m.content)
    case Assistant => [AssistantMsg(SaidText(m.content), Calls(m.content))]
  }

  function Flatten(ms: seq<Msg>): seq<Chat> {
    if ms == [] then [] else Flatten(ms[..|ms| - 1]) + FlattenOne(ms[|ms| - 1])
  }

  method JoinSystem(system: seq<string>) returns (text: string)
    ensures text == Joined(system)
  {
    text := "";
    for i := 0 to |system|
      invariant text == Joined(system[..i])
    {
      assert system[..i + 1][..i] == system[..i];
      if i > 0 {
        text := text + "\n\n";
      }
      text := text + system[i];
    }
    assert system[..|system|] == system;
  }

  method ToOpenAIMessages(system: seq<string>, msgs: seq<Msg>) returns (out: seq<Chat>)
    ensures out == (if system == [] then [] else [SystemMsg(Joined(system))]) + Flatten(msgs)
  {
    out := [];
    if |system| > 0 {
      var text := JoinSystem(system);
      out := [SystemMsg(text)];
    }
    ghost var head := out;
    assert head + [] == head;
    for k := 0 to |msgs|
      invariant out == head + Flatten(msgs[..k])
    {
      var one := FlattenMessage(msgs[k]);
      out := out + one;
      FlattenNext(head, msgs, k);
    }
    assert msgs[..|msgs|] == msgs;
  }

  lemma FlattenNext(head: seq<Chat>, msgs: seq<Msg>, k: int)
    requires 0 <= k < |msgs|
    ensures head + Flatten(msgs[..k]) + FlattenOne(msgs[k]) == head + Flatten(msgs[..k + 1])
  {
    assert msgs[..k + 1][..k] == msgs[..k];
  }

  method FlattenMessage(m: Msg) returns (out: seq<Chat>)
    ensures out == FlattenOne(m)
  {
    var c := m.content;
    match m.role {
      case User =>
        out := [];
        for k := 0 to |c|
          invariant out == UserMsgs(c[..k])
        {
          assert c[..k + 1][..k] == c[..k];
          match c[k] {
            case Text(t) => out := out + [UserMsg(t)];
            case ToolResult(id, t, _) => out := out + [ToolMsg(t, id)];
            case ToolUse(_, _, _) =>
          }
        }
        assert c[..|c|] == c;
      case Assistant =>
        var toolCalls: seq<FunctionCall>, text := [], "";
        for k := 0 to |c|
          invariant text == SaidText(c[..k]) && toolCalls == Calls(c[..k])
        {
          assert c[..k + 1][..k] == c[..k];
          match c[k] {
            case Text(t) => text := text + t;
            case ToolUse(id, name, input) => toolCalls := toolCalls + [FunctionCall(id, name, input)];
            case ToolResult(_, _, _) =>
          }
        }
        assert c[..|c|] == c;
        out := [AssistantMsg(text, toolCalls)];
    }
  }

  // ---- reading a completion -------------------------------------------------

  function CallBlocks(calls: seq<FunctionCall>): seq<Block> {
    if calls == [] then []
    else CallBlocks(calls[..|calls| - 1])
         + [ToolUse(calls[|calls| - 1].id, calls[|calls| - 1].name, calls[|calls| - 1].arguments)]
  }

  /** The blocks of a completion's first choice: its text if it has any, then its calls. */
  function Blocks(text: string, calls: seq<FunctionCall>): seq<Block> {
    (if text == "" then [] else [Text(text)]) + CallBlocks(calls)
  }

  method FromOpenAIMessage(choices: seq<(string, seq<FunctionCall>)>) returns (m: Msg)
    ensures m.role == Assistant
    ensures m.content == if choices == [] then [] else Blocks(choices[0].0, choices[0].1)
  {
    if |choices| == 0 {
      return Msg(Assistant, []);
    }
    var text, calls := choices[0].0, choices[0].1;
    var blocks: seq<Block> := [];
    if text != "" {
      blocks := [Text(text)];
    }
    ghost var head := blocks;
    assert head + [] == head;
    for k := 0 to |calls|
      invariant blocks == head + CallBlocks(calls[..k])
    {
      var block := ToolUse(calls[k].id, calls[k].name, calls[k].arguments);
      assert calls[..k + 1][..k] == calls[..k];
      assert head + CallBlocks(calls[..k]) + [block] == head + (CallBlocks(calls[..k]) + [block]);
      blocks := blocks + [block];
    }
    assert calls[..|calls|] == calls;
    m := Msg(Assistant, blocks);
  }

  lemma {:induction false} CallBlocksRead(head: seq<Block>, calls: seq<FunctionCall>)
    requires head == [] || (|head| == 1 && head[0].Text?)
    ensures SaidText(head + CallBlocks(calls)) == (if head == [] then "" else head[0].text)
    ensures Calls(head + CallBlocks(calls)) == calls
    decreases |calls|
  {
    var all := head + CallBlocks(calls);
    if calls == [] {
      assert all == head && (head != [] ==> head[..0] == []);
    } else {
      var before, last := calls[..|calls| - 1], calls[|calls| - 1];
      CallBlocksRead(head, before);
      var prev, block := head + CallBlocks(before), ToolUse(last.id, last.name, last.arguments);
      assert CallBlocks(calls) == CallBlocks(before) + [block];
      hide CallBlocks, SaidText, Calls;
      Assoc(head, CallBlocks(before), [block]);
      OneMoreCall(prev, last);
      assert calls == before + [last];
    }
  }

  lemma OneMoreCall(prev: seq<Block>, c: FunctionCall)
    ensures var all := prev + [ToolUse(c.id, c.name, c.arguments)];
            SaidText(all) == SaidText(prev) && Calls(all) == Calls(prev) + [c]
  {
    var all := prev + [ToolUse(c.id, c.name, c.arguments)];
    assert all[..|all| - 1] == prev;
    assert SaidText(prev) + "" == SaidText(prev);
  }

  /** Flattening a message read from a completion gives back its text and its calls. */
  lemma CompletionRoundTrip(text: string, calls: seq<FunctionCall>)
    ensures FlattenOne(Msg(Assistant, Blocks(text, calls))) == [AssistantMsg(text, calls)]
  {
    CallBlocksRead(if text == "" then [] else [Text(text)], calls);
  }

  // ---- the flattened history ------------------------------------------------

  lemma {:induction false} FlattenInParts(a: seq<Msg>, b: seq<Msg>)
    ensures Flatten(a + b) == Flatten(a) + Flatten(b)
    decreases |b|
  {
    if b == [] {
      assert a + b == a;
    } else {
      LastOf(a, b);
      FlattenInParts(a, b[..|b| - 1]);
      Assoc(Flatten(a), Flatten(b[..|b| - 1]), FlattenOne(b[|b| - 1]));
    }
  }

  lemma {:induction false} CallIds(content: seq<Block>)
    ensures |Calls(content)| == |UseIds(content)|
    ensures forall k | 0 <= k < |Calls(content)| :: Calls(content)[k].id == UseIds(content)[k]
  {
    if content != [] { CallIds(content[..|content| - 1]); }
  }

  predicate OnlyResults(content: seq<Block>) {
    forall b | b in content :: b.ToolResult?
  }

  lemma {:induction false} ResultMsgs(content: seq<Block>)
    requires OnlyResults(content)
    ensures |UserMsgs(content)| == |content| == |ResultIds(content)|
    ensures forall k | 0 <= k < |content| ::
              UserMsgs(content)[k] == ToolMsg(ResultOf(content[k]), ResultIds(content)[k])
  {
    if content != [] {
      assert content[|content| - 1] in content;
      ResultMsgs(content[..|content| - 1]);
    }
  }

  predicate OnlyText(content: seq<Block>) {
    forall b | b in content :: b.Text?
  }

  lemma {:induction false} TextMsgs(content: seq<Block>)
    requires OnlyText(content)
    ensures |UserMsgs(content)| == |content|
    ensures forall k | 0 <= k < |content| :: UserMsgs(content)[k] == UserMsg(content[k].text)
  {
    if content != [] {
      assert content[|content| - 1] in content;
      TextMsgs(content[..|content| - 1]);
    }
  }

  /** User messages are all text or all results, as in every history the turn loop builds. */
  predicate Unmixed(ms: seq<Msg>) {
    forall i | 0 <= i < |ms| :: ms[i].role == User ==> OnlyText(ms[i].content) || OnlyResults(ms[i].content)
  }

  /** Where message `i` starts in the flattened list. */
  function Place(ms: seq<Msg>, i: int): nat
    requires 0 <= i <= |ms|
  {
    |Flatten(ms[..i])|
  }

  lemma FlattenAround(ms: seq<Msg>, i: int)
    requires 0 <= i < |ms|
    ensures Flatten(ms[..i + 1]) == Flatten(ms[..i]) + FlattenOne(ms[i])
    ensures Flatten(ms) == Flatten(ms[..i]) + FlattenOne(ms[i]) + Flatten(ms[i + 1..])
  {
    TakeOne(ms, i);
    FlattenInParts(ms[..i + 1], ms[i + 1..]);
  }

  lemma PlacesInOrder(ms: seq<Msg>, i: int)
    requires 0 <= i < |ms|
    ensures Place(ms, i + 1) == Place(ms, i) + |FlattenOne(ms[i])|
    ensures StandsAt(Flatten(ms), Place(ms, i), FlattenOne(ms[i]))
  {
    FlattenAround(ms, i);
    MiddleAt(Flatten(ms[..i]), FlattenOne(ms[i]), Flatten(ms[i + 1..]));
  }

  function ResultOf(b: Block): string {
    if b.ToolResult? then b.text else ""
  }

  /** Assistant message `i` is in the flattened list at its place, and is followed there by exactly
      its tool messages, in call order: each has the text of the result and the id of the call. */
  predicate Followed(ms: seq<Msg>, i: int)
    requires 0 <= i < |ms|
  {
    i + 1 < |ms| && FollowedAt(Flatten(ms), Place(ms, i), ms[i].content, ms[i + 1].content)
  }

  /** Position `p` holds the message saying `said`, then the tool messages of its calls, with the
      texts of `results` - and then no further tool message. */
  predicate FollowedAt(out: seq<Chat>, p: nat, said: seq<Block>, results: seq<Block>) {
    var calls := Calls(said);
    && p + |calls| < |out| && out[p] == AssistantMsg(SaidText(said), calls)
    && |calls| <= |results|
    && (forall k | 0 <= k < |calls| :: out[p + 1 + k] == ToolMsg(ResultOf(results[k]), calls[k].id))
    && (p + 1 + |calls| == |out| || !out[p + 1 + |calls|].ToolMsg?)
  }

  predicate AllFollowed(ms: seq<Msg>) {
    forall i | 0 <= i < |ms| && ms[i].role == Assistant :: Followed(ms, i)
  }

  lemma AssistantStands(ms: seq<Msg>, i: int)
    requires 0 <= i < |ms| && ms[i].role == Assistant
    ensures var out, p, content := Flatten(ms), Place(ms, i), ms[i].content;
            Place(ms, i + 1) == p + 1 <= |out| && out[p] == AssistantMsg(SaidText(content), Calls(content))
  {
    PlacesInOrder(ms, i);
    assert Flatten(ms)[Place(ms, i) + 0] == FlattenOne(ms[i])[0];
  }

  lemma CallsFollowedByResults(ms: seq<Msg>, i: int)
    requires Protocol(ms) && Unmixed(ms) && 0 <= i < |ms| && ms[i].role == Assistant
    ensures Followed(ms, i)
  {
    NextAfter(ms, i);
    if UseIds(ms[i].content) == [] { FollowedWithoutCalls(ms, i); } else { FollowedWithCalls(ms, i); }
  }

  lemma FollowedWithoutCalls(ms: seq<Msg>, i: int)
    requires Protocol(ms) && Unmixed(ms) && 0 <= i && i + 1 < |ms| && ms[i].role == Assistant
              && UseIds(ms[i].content) == []
    requires ms[i + 1].role == User ==> ResultIds(ms[i + 1].content) == []
    ensures Followed(ms, i)
  {
    AssistantStands(ms, i);
    assert Calls(ms[i].content) == [] by { CallIds(ms[i].content); }
    NoToolAhead(ms, i + 1);
    FollowedByNone(Flatten(ms), Place(ms, i), ms[i].content, ms[i + 1].content);
  }

  lemma FollowedWithCalls(ms: seq<Msg>, i: int)
    requires Protocol(ms) && Unmixed(ms) && 0 <= i && i + 1 < |ms| && ms[i].role == Assistant
              && UseIds(ms[i].content) != []
    requires i + 2 < |ms| && ms[i + 2].role == User ==> ResultIds(ms[i + 2].content) == []
    ensures Followed(ms, i)
  {
    AssistantStands(ms, i);
    ResultsFollow(ms, i);
    NoToolAhead(ms, i + 2);
    FollowedBy(Flatten(ms), Place(ms, i), ms[i].content, ms[i + 1].content);
  }

  /** What the protocol says of the messages after assistant message `i`. */
  lemma NextAfter(ms: seq<Msg>, i: int)
    requires Protocol(ms) && 0 <= i < |ms| && ms[i].role == Assistant
    ensures i + 1 < |ms|
    ensures UseIds(ms[i].content) == [] ==> (ms[i + 1].role == User ==> ResultIds(ms[i + 1].content) == [])
    ensures UseIds(ms[i].content) != [] && i + 2 < |ms| ==>
              (ms[i + 2].role == User ==> ResultIds(ms[i + 2].content) == [])
  {
    assert AnsweredAt(ms, i) && AnswersAt(ms, i + 1);
    if i + 2 < |ms| { assert AnswersAt(ms, i + 2); }
  }

  lemma FollowedByNone(out: seq<Chat>, p: nat, said: seq<Block>, results: seq<Block>)
    requires p < |out| && out[p] == AssistantMsg(SaidText(said), Calls(said)) && Calls(said) == []
    requires p + 1 == |out| || !out[p + 1].ToolMsg?
    ensures FollowedAt(out, p, said, results)
  {
  }

  lemma FollowedBy(out: seq<Chat>, p: nat, said: seq<Block>, results: seq<Block>)
    requires p < |out| && out[p] == AssistantMsg(SaidText(said), Calls(said))
              && ToolsAt(out, p + 1, Calls(said), results)
    requires p + 1 + |Calls(said)| == |out| || !out[p + 1 + |Calls(said)|].ToolMsg?
    ensures FollowedAt(out, p, said, results)
  {
    var calls := Calls(said);
    forall k | 0 <= k < |calls| ensures out[p + 1 + k] == ToolMsg(ResultOf(results[k]), calls[k].id) {
      assert out[(p + 1) + k] == ToolMsg(ResultOf(results[k]), calls[k].id);
    }
  }

  /** Message `j` holds the results of `uses`, flattened to as many tool messages. */
  predicate ResultsStand(ms: seq<Msg>, j: int, uses: seq<Block>)
    requires 0 <= j < |ms|
  {
    Place(ms, j + 1) == Place(ms, j) + |Calls(uses)| && ToolsAt(Flatten(ms), Place(ms, j), Calls(uses), ms[j].content)
  }

  predicate ToolsAt(out: seq<Chat>, q: nat, calls: seq<FunctionCall>, results: seq<Block>) {
    |results| == |calls| && q + |calls| <= |out|
    && forall k | 0 <= k < |calls| :: out[q + k] == ToolMsg(ResultOf(results[k]), calls[k].id)
  }

  lemma ResultsFollow(ms: seq<Msg>, i: int)
    requires Protocol(ms) && Unmixed(ms) && 0 <= i && i + 1 < |ms| && ms[i].role == Assistant
    requires UseIds(ms[i].content) != []
    ensures ResultsStand(ms, i + 1, ms[i].content)
  {
    assert AnsweredAt(ms, i);
    CallIds(ms[i].content);
    OnlyResultsThere(ms[i + 1].content);
    ResultsAt(ms, i + 1, ms[i].content);
  }

  lemma ResultsAt(ms: seq<Msg>, j: int, uses: seq<Block>)
    requires 0 <= j < |ms| && ms[j].role == User && OnlyResults(ms[j].content)
              && ResultIds(ms[j].content) == UseIds(uses)
    ensures ResultsStand(ms, j, uses)
  {
    PlacesInOrder(ms, j);
    ResultsMatch(uses, ms[j].content);
    assert FlattenOne(ms[j]) == UserMsgs(ms[j].content);
  }

  lemma ResultsMatch(uses: seq<Block>, results: seq<Block>)
    requires OnlyResults(results) && ResultIds(results) == UseIds(uses)
    ensures |UserMsgs(results)| == |results| == |Calls(uses)|
    ensures forall k | 0 <= k < |results| :: UserMsgs(results)[k] == ToolMsg(ResultOf(results[k]), Calls(uses)[k].id)
  {
    CallIds(uses);
    ResultMsgs(results);
  }

  lemma OnlyResultsThere(content: seq<Block>)
    requires (OnlyText(content) || OnlyResults(content)) && ResultIds(content) != []
    ensures OnlyResults(content)
  {
    if OnlyText(content) { NoTools(content); }
  }

  /** Unless message `j` is a user message with results, no tool message comes next from there. */
  lemma {:induction false} NoToolAhead(ms: seq<Msg>, j: int)
    requires Protocol(ms) && Unmixed(ms) && 0 <= j <= |ms|
    requires j < |ms| && ms[j].role == User ==> ResultIds(ms[j].content) == []
    ensures Place(ms, j) <= |Flatten(ms)|
    ensures Place(ms, j) == |Flatten(ms)| || !Flatten(ms)[Place(ms, j)].ToolMsg?
    decreases |ms| - j
  {
    if j == |ms| {
      assert ms[..j] == ms;
    } else {
      var one := FlattenOne(ms[j]);
      PlacesInOrder(ms, j);
      if ms[j].role == User {
        if OnlyResults(ms[j].content) { ResultMsgs(ms[j].content); } else { TextMsgs(ms[j].content); }
      }
      if one == [] {
        if j + 1 < |ms| { assert AnswersAt(ms, j + 1); }
        NoToolAhead(ms, j + 1);
      } else {
        assert Flatten(ms)[Place(ms, j) + 0] == one[0];
      }
    }
  }

  // ---- it holds of every request --------------------------------------------

  predicate AllUnmixed(requests: seq<seq<Msg>>) {
    forall k | 0 <= k < |requests| :: Unmixed(requests[k])
  }

  lemma {:induction false} ResultsAreResults(w: World, calls: nat, content: seq<Block>)
    ensures OnlyResults(ToolResults(w, calls, content))
  {
    if content != [] { ResultsAreResults(w, calls, content[..|content| - 1]); }
  }

  lemma {:induction false} RoundsUnmixed(w: World, i: int, calls: nat, ms: seq<Msg>)
    requires Unmixed(ms)
    ensures AllUnmixed(Rounds(w, i, calls, ms).requests)
    decreases w.maxIters - i
  {
    if i < w.maxIters && OneRound(w, i, calls, ms).Continue? {
      var r := OneRound(w, i, calls, ms);
      ResultsAreResults(w, calls, w.provider(i, ms).content);
      RoundsUnmixed(w, i + 1, r.calls, r.msgs);
    }
  }

  /** In every request of a turn, however the provider answers, each assistant message is followed in
      the flattened list by its tool messages, in call order, and by no other tool message. */
  lemma TurnRequestsFlatten(w: World, history: seq<Msg>, userMessage: string, unresolved: Option<string>)
    requires TextOnly(history)
    ensures var rs := Turn(w, history, userMessage, unresolved).requests;
            forall k | 0 <= k < |rs| :: AllFollowed(rs[k])
  {
    var start := history + [Msg(User, [Text(userMessage)])];
    var rs := Turn(w, history, userMessage, unresolved).requests;
    EveryRequestAnswersItsCalls(w, history, userMessage, unresolved);
    if unresolved.None? {
      forall j | 0 <= j < |start| ensures OnlyText(start[j].content) { }
      RoundsUnmixed(w, 0, 0, start);
    }
    forall k | 0 <= k < |rs| ensures AllFollowed(rs[k]) {
      var ms: seq<Msg> := rs[k];
      forall i | 0 <= i < |ms| && ms[i].role == Assistant ensures Followed(ms, i) { CallsFollowedByResults(ms, i); }
    }
  }

  // ---- the parts of a message ------------------------------------------------

  /** The system blocks are joined by blank lines, in order. */
  lemma JoinedByBlankLines(a: string, b: string, rest: seq<string>)
    ensures Joined([]) == "" && Joined([a]) == a && Joined([a, b]) == a + "\n\n" + b
    ensures rest != [] ==> Joined(rest + [b]) == Joined(rest) + "\n\n" + b
  {
    assert [a, b][..1] == [a] && (rest + [b])[..|rest|] == rest;
  }

  /** Each tool_use block of an assistant message becomes one call, with its own id, name and arguments, in
      the order of the blocks; and read back, the k-th call is the k-th block again. */
  lemma {:induction false} CallOfBlock(content: seq<Block>, j: int)
    requires 0 <= j < |content|
    ensures var k, b := |Calls(content[..j])|, content[j];
            && k <= |Calls(content)| && Calls(content)[..k] == Calls(content[..j])
            && |Calls(content[..j + 1])| == k + (if b.ToolUse? then 1 else 0)
            && (b.ToolUse? ==>
                  && k < |Calls(content)| && Calls(content)[k].id == b.id && Calls(content)[k].name == b.name
                  && Calls(content)[k].arguments == b.input)
    decreases |content|
  {
    var init := content[..|content| - 1];
    if j < |init| {
      CallOfBlock(init, j);
      assert init[j] == content[j] && init[..j] == content[..j] && init[..j + 1] == content[..j + 1];
      assert Calls(content)[..|Calls(init)|] == Calls(init);
    } else {
      assert content[..j + 1] == content && content[..j + 1][..j] == content[..j];
    }
  }

  /** The text of an assistant message is that of its text blocks, put together in order. */
  lemma {:induction false} SaidInParts(a: seq<Block>, b: seq<Block>)
    ensures SaidText(a + b) == SaidText(a) + SaidText(b)
    decreases |b|
  {
    if b == [] {
      assert a + b == a;
    } else {
      LastOf(a, b);
      SaidInParts(a, b[..|b| - 1]);
      Assoc(SaidText(a), SaidText(b[..|b| - 1]), if b[|b| - 1].Text? then b[|b| - 1].text else "");
    }
  }

  lemma SaidByOne(b: Block)
    ensures SaidText([b]) == if b.Text? then b.text else ""
  {
    assert [b][..0] == [];
  }

  /** Each text block of a user message becomes one user message and each result one tool message, with its
      own text and id, in the order of the blocks; a call in a user message becomes nothing. */
  lemma {:induction false} UserMsgOfBlock(content: seq<Block>, j: int)
    requires 0 <= j < |content|
    ensures var k, b := |UserMsgs(content[..j])|, content[j];
            && k <= |UserMsgs(content)| && UserMsgs(content)[..k] == UserMsgs(content[..j])
            && |UserMsgs(content[..j + 1])| == k + (if b.ToolUse? then 0 else 1)
            && (!b.ToolUse? ==> k < |UserMsgs(content)|)
            && (b.Text? ==> UserMsgs(content)[k] == UserMsg(b.text))
            && (b.ToolResult? ==> UserMsgs(content)[k].ToolMsg? && UserMsgs(content)[k].text == b.text
                                  && UserMsgs(content)[k].id == b.id)
    decreases |content|
  {
    var init := content[..|content| - 1];
    if j < |init| {
      UserMsgOfBlock(init, j);
      assert init[j] == content[j] && init[..j] == content[..j] && init[..j + 1] == content[..j + 1];
      assert UserMsgs(content)[..|UserMsgs(init)|] == UserMsgs(init);
    } else {
      assert content[..j + 1] == content && content[..j + 1][..j] == content[..j];
    }
  }

  /** The block read from a call carries the call's own id, name and arguments. */
  lemma {:induction false} BlockOfCall(calls: seq<FunctionCall>, k: int)
    requires 0 <= k < |calls|
    ensures |CallBlocks(calls)| == |calls|
    ensures var b := CallBlocks(calls)[k];
            b.ToolUse? && b.id == calls[k].id && b.name == calls[k].name && b.input == calls[k].arguments
    decreases |calls|
  {
    var init := calls[..|calls| - 1];
    if k < |init| {
      BlockOfCall(init, k);
    } else if init != [] {
      BlockOfCall(init, 0);
    }
  }
}
