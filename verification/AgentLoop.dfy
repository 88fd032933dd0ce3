/** One user turn: the agent asks the provider, runs the tools it calls, and asks again until
    the provider stops calling tools. Provider and tools are arbitrary functions of what they
    are given and of how often they were called before. */
module AgentLoop {
  import opened Seqs
  import opened Wrappers

  datatype Block =
    | Text(text: string)
    | ToolUse(id: string, name: string, input: string)
    | ToolResult(id: string, text: string, isError: bool)

  datatype Role = User | Assistant

  datatype Msg = Msg(role: Role, content: seq<Block>)

  datatype StreamEvent = TextDelta(text: string) | ToolCallStart(name: string, id: string) | OtherDelta

  /** A provider call: what it streamed, and then either an error or a complete message. */
  datatype Reply =
    | Failed(stream: seq<StreamEvent>, error: string)
    | Replied(stream: seq<StreamEvent>, toolUse: bool, content: seq<Block>)

  datatype Event =
    | TextEvent(text: string)
    | CallStarted(tool: string, id: string)
    | Call(tool: string, id: string, input: string)
    | Returned(tool: string, id: string, result: string, isError: bool)
    | Error(result: string)
    | Done
    | Cancelled

  predicate Terminal(e: Event) {
    e.Error? || e.Done?
  }

  /** The round and the history so far determine a reply; the calls so far, a tool and its input, a result. */
  datatype World = World(
    maxIters: int,
    provider: (int, seq<Msg>) -> Reply,
    registered: seq<string>,
    tool: (nat, string, string) -> Result<string, string>)

  const DEFAULT_MAX_ITERS := 60

  /** A limit of zero means the default. */
  function Limit(configured: int): int {
    if configured == 0 then DEFAULT_MAX_ITERS else configured
  }

  // ---- what a turn does -----------------------------------------------------

  function Streamed(s: seq<StreamEvent>): seq<Event> {
    if s == [] then []
    else Streamed(s[..|s| - 1])
         + match s[|s| - 1]
           case TextDelta(t) => [TextEvent(t)]
           case ToolCallStart(n, id) => [CallStarted(n, id)]
           case OtherDelta => []
  }

  function CallResult(w: World, calls: nat, name: string, input: string): Result<string, string> {
    if name in w.registered then w.tool(calls, name, input) else Err("unknown tool: " + name)
  }

  function ResultText(r: Result<string, string>): string {
    match r case Ok(s) => s case Err(e) => e
  }

  /** The tool calls of a message, in order. */
  function Uses(content: seq<Block>): seq<Block> {
    if content == [] then []
    else Uses(content[..|content| - 1]) + if content[|content| - 1].ToolUse? then [content[|content| - 1]] else []
  }

  /** What one block comes to when `n` calls were made before it. */
  function BlockEvents(w: World, n: nat, b: Block): seq<Event> {
    if !b.ToolUse? then []
    else
      var r := CallResult(w, n, b.name, b.input);
      [Call(b.name, b.id, b.input), Returned(b.name, b.id, ResultText(r), r.Err?)]
  }

  function BlockResults(w: World, n: nat, b: Block): seq<Block> {
    if !b.ToolUse? then []
    else
      var r := CallResult(w, n, b.name, b.input);
      [ToolResult(b.id, ResultText(r), r.Err?)]
  }

  function ToolEvents(w: World, calls: nat, content: seq<Block>): seq<Event> {
    if content == [] then []
    else
      var init, b := content[..|content| - 1], content[|content| - 1];
      ToolEvents(w, calls, init) + BlockEvents(w, calls + |Uses(init)|, b)
  }

  function ToolResults(w: World, calls: nat, content: seq<Block>): seq<Block> {
    if content == [] then []
    else
      var init, b := content[..|content| - 1], content[|content| - 1];
      ToolResults(w, calls, init) + BlockResults(w, calls + |Uses(init)|, b)
  }

  /** What one more block adds. */
  lemma OneMoreBlock(w: World, calls: nat, content: seq<Block>, k: int)
    requires 0 <= k < |content|
    ensures var b, n := content[k], calls + |Uses(content[..k])|;
            && Uses(content[..k + 1]) == Uses(content[..k]) + (if b.ToolUse? then [b] else [])
            && ToolEvents(w, calls, content[..k + 1]) == ToolEvents(w, calls, content[..k]) + BlockEvents(w, n, b)
            && ToolResults(w, calls, content[..k + 1]) == ToolResults(w, calls, content[..k]) + BlockResults(w, n, b)
  {
    TakeOne(content, k);
  }

  /** The first `k` blocks are done: what was emitted since `before`, the results, and the calls made. */
  predicate BlocksDone(w: World, calls: nat, content: seq<Block>, k: int, before: seq<Event>, events: seq<Event>,
                       results: seq<Block>, made: nat) {
    && 0 <= k <= |content| && events == before + ToolEvents(w, calls, content[..k])
    && results == ToolResults(w, calls, content[..k])
    && made == calls + |Uses(content[..k])| == calls + |results|
  }

  lemma NoBlockDone(w: World, calls: nat, content: seq<Block>, before: seq<Event>)
    ensures BlocksDone(w, calls, content, 0, before, before, [], calls)
  {
    assert content[..0] == [] && before + [] == before;
  }

  lemma OneMoreDone(w: World, calls: nat, content: seq<Block>, k: int, before: seq<Event>, events: seq<Event>,
                    results: seq<Block>, made: nat)
    requires BlocksDone(w, calls, content, k, before, events, results, made) && k < |content|
    ensures var b, more := content[k], BlockResults(w, made, content[k]);
            BlocksDone(w, calls, content, k + 1, before, events + BlockEvents(w, made, b), results + more,
              made + |more|)
  {
    OneMoreBlock(w, calls, content, k);
    hide ToolEvents, ToolResults, Uses;
    Assoc(before, ToolEvents(w, calls, content[..k]), BlockEvents(w, made, content[k]));
  }

  lemma AllBlocksDone(w: World, calls: nat, content: seq<Block>, before: seq<Event>, events: seq<Event>,
                      results: seq<Block>, made: nat)
    requires BlocksDone(w, calls, content, |content|, before, events, results, made)
    ensures events == before + ToolEvents(w, calls, content) && results == ToolResults(w, calls, content)
    ensures made == calls + |results|
  {
    assert content[..|content|] == content;
  }

  const NO_BLOCKS := "model requested tool use but emitted no tool blocks"
  const TOO_MANY := "max iterations reached"

  /** One round: the turn ends here, or goes on with the tool results appended. */
  datatype Round =
    | Stop(events: seq<Event>, msgs: seq<Msg>, err: Option<string>)
    | Continue(events: seq<Event>, msgs: seq<Msg>, calls: nat)

  function OneRound(w: World, i: int, calls: nat, msgs: seq<Msg>): Round {
    match w.provider(i, msgs)
    case Failed(s, e) => Stop(Streamed(s) + [Error(e)], msgs, Some(e))
    case Replied(s, toolUse, content) =>
      var events := Streamed(s) + ToolEvents(w, calls, content);
      var results := ToolResults(w, calls, content);
      var said := msgs + [Msg(Assistant, content)];
      if !toolUse then Stop(events + [Done], said, None)
      else if results == [] then Stop(events + [Error(NO_BLOCKS)], said, Some("empty tool batch"))
      else Continue(events, said + [Msg(User, results)], calls + |results|)
  }

  datatype Outcome = Outcome(events: seq<Event>, requests: seq<seq<Msg>>, msgs: seq<Msg>, err: Option<string>)

  function Rounds(w: World, i: int, calls: nat, msgs: seq<Msg>): Outcome
    decreases w.maxIters - i
  {
    if i >= w.maxIters then Outcome([Error(TOO_MANY)], [], msgs, Some(TOO_MANY))
    else
      match OneRound(w, i, calls, msgs)
      case Stop(events, ms, err) => Outcome(events, [msgs], ms, err)
      case Continue(events, ms, n) =>
        var rest := Rounds(w, i + 1, n, ms);
        Outcome(events + rest.events, [msgs] + rest.requests, rest.msgs, rest.err)
  }

  /** What was already done, followed by what a turn still does. */
  function After(events: seq<Event>, requests: seq<seq<Msg>>, o: Outcome): Outcome {
    Outcome(events + o.events, requests + o.requests, o.msgs, o.err)
  }

  lemma AfterRound(w: World, i: int, calls: nat, msgs: seq<Msg>, events: seq<Event>, requests: seq<seq<Msg>>)
    requires i < w.maxIters
    ensures After(events, requests, Rounds(w, i, calls, msgs)) ==
            match OneRound(w, i, calls, msgs)
            case Stop(es, ms, err) => Outcome(events + es, requests + [msgs], ms, err)
            case Continue(es, ms, n) => After(events + es, requests + [msgs], Rounds(w, i + 1, n, ms))
  {
    match OneRound(w, i, calls, msgs) {
      case Stop(es, ms, err) =>
      case Continue(es, ms, n) =>
        var rest := Rounds(w, i + 1, n, ms);
        assert events + (es + rest.events) == events + es + rest.events;
        assert requests + ([msgs] + rest.requests) == requests + [msgs] + rest.requests;
    }
  }

  /** The outcome of a whole turn; `unresolved` is the error when no provider is configured. */
  function Turn(w: World, history: seq<Msg>, userMessage: string, unresolved: Option<string>): Outcome {
    var msgs := history + [Msg(User, [Text(userMessage)])];
    if unresolved.Some? then Outcome([Error(unresolved.value)], [], msgs, unresolved)
    else Rounds(w, 0, 0, msgs)
  }

  /** The text of a turn's text events: what the server saves as the assistant's message. */
  function TextOf(events: seq<Event>): string {
    if events == [] then ""
    else TextOf(events[..|events| - 1]) + match events[|events| - 1] case TextEvent(t) => t case _ => ""
  }

  lemma {:induction false} TextOfAppend(a: seq<Event>, b: seq<Event>)
    ensures TextOf(a + b) == TextOf(a) + TextOf(b)
    decreases |b|
  {
    if b == [] {
      assert a + b == a;
    } else {
      LastOf(a, b);
      TextOfAppend(a, b[..|b| - 1]);
    }
  }

  /** The server's side of a turn: the events sent to the client and the text buffered for saving. */
  class ChatTurn {
    const world: World
    var events: seq<Event>
    var assistantBuf: string
    var requests: seq<seq<Msg>>
    var calls: nat

    constructor (config: World)
      ensures world == config.(maxIters := Limit(config.maxIters))
      ensures world.maxIters == if config.maxIters == 0 then 60 else config.maxIters
      ensures events == [] && assistantBuf == "" && requests == [] && calls == 0 && Buffered()
    {
      world := config.(maxIters := Limit(config.maxIters));
      events, assistantBuf, requests, calls := [], "", [], 0;
    }

    ghost predicate Buffered()
      reads this
    {
      assistantBuf == TextOf(events)
    }

    method Emit(e: Event)
      requires Buffered()
      modifies this`events, this`assistantBuf
      ensures events == old(events) + [e] && Buffered()
    {
      TextOfAppend(events, [e]);
      assert [e][..0] == [];
      events := events + [e];
      if e.TextEvent? {
        assistantBuf := assistantBuf + e.text;
      }
    }

    method EmitStream(s: seq<StreamEvent>)
      requires Buffered()
      modifies this`events, this`assistantBuf
      ensures events == old(events) + Streamed(s) && Buffered()
    {
      for k := 0 to |s|
        invariant events == old(events) + Streamed(s[..k]) && Buffered()
      {
        assert s[..k + 1][..k] == s[..k];
        match s[k] {
          case TextDelta(t) => Emit(TextEvent(t));
          case ToolCallStart(n, id) => Emit(CallStarted(n, id));
          case OtherDelta =>
        }
      }
      assert s[..|s|] == s;
    }

    method CallTool(name: string, input: string) returns (r: Result<string, string>)
      modifies this`calls
      ensures r == CallResult(world, old(calls), name, input) && calls == old(calls) + 1
    {
      calls := calls + 1;
      for k := 0 to |world.registered|
        invariant name !in world.registered[..k] && calls == old(calls) + 1
      {
        if world.registered[k] == name {
          return world.tool(calls - 1, name, input);
        }
      }
      r := Err("unknown tool: " + name);
    }

    /** The loop body for one block; anything but a tool call is skipped. */
    method RunBlock(b: Block) returns (toolResults: seq<Block>)
      requires Buffered()
      modifies this`events, this`assistantBuf, this`calls
      ensures Buffered() && events == old(events) + BlockEvents(world, old(calls), b)
      ensures toolResults == BlockResults(world, old(calls), b) && calls == old(calls) + |toolResults|
    {
      if !b.ToolUse? {
        assert events + [] == events;
        return [];
      }
      Emit(Call(b.name, b.id, b.input));
      var r := CallTool(b.name, b.input);
      Emit(Returned(b.name, b.id, ResultText(r), r.Err?));
      Assoc(old(events), [Call(b.name, b.id, b.input)], [Returned(b.name, b.id, ResultText(r), r.Err?)]);
      toolResults := [ToolResult(b.id, ResultText(r), r.Err?)];
    }

    method RunTools(content: seq<Block>) returns (toolResults: seq<Block>)
      requires Buffered()
      modifies this`events, this`assistantBuf, this`calls
      ensures Buffered() && events == old(events) + ToolEvents(world, old(calls), content)
      ensures toolResults == ToolResults(world, old(calls), content) && calls == old(calls) + |toolResults|
    {
      hide BlocksDone, BlockEvents, BlockResults, ToolEvents, ToolResults, TextOf;
      toolResults := [];
      NoBlockDone(world, calls, content, events);
      for k := 0 to |content|
        invariant Buffered()
        invariant BlocksDone(world, old(calls), content, k, old(events), events, toolResults, calls)
      {
        OneMoreDone(world, old(calls), content, k, old(events), events, toolResults, calls);
        var more := RunBlock(content[k]);
        toolResults := toolResults + more;
      }
      AllBlocksDone(world, old(calls), content, old(events), events, toolResults, calls);
    }

    /** One pass of the loop body; `next` is the history to go on with, unless the turn is over. */
    method RunRound(i: int, msgs: seq<Msg>) returns (over: bool, next: seq<Msg>, err: Option<string>)
      requires Buffered()
      modifies this
      ensures Buffered() && requests == old(requests) + [msgs]
      ensures var r := OneRound(world, i, old(calls), msgs);
              && events == old(events) + r.events && next == r.msgs && over == r.Stop?
              && (over ==> err == r.err) && (!over ==> calls == r.calls)
    {
      err := None;
      requests := requests + [msgs];
      var reply := world.provider(i, msgs);
      ghost var e0, s := events, Streamed(reply.stream);
      EmitStream(reply.stream);
      if reply.Failed? {
        Emit(Error(reply.error));
        Assoc(e0, s, [Error(reply.error)]);
        return true, msgs, Some(reply.error);
      }
      next := msgs + [Msg(Assistant, reply.content)];
      ghost var tools := ToolEvents(world, calls, reply.content);
      ghost var t := s + tools;
      var toolResults := RunTools(reply.content);
      Assoc(e0, s, tools);
      if !reply.toolUse {
        Emit(Done);
        Assoc(e0, t, [Done]);
        return true, next, None;
      }
      if |toolResults| == 0 {
        Emit(Error(NO_BLOCKS));
        Assoc(e0, t, [Error(NO_BLOCKS)]);
        return true, next, Some("empty tool batch");
      }
      over, next := false, next + [Msg(User, toolResults)];
    }

    method Run(history: seq<Msg>, userMessage: string, unresolved: Option<string>)
      returns (msgs: seq<Msg>, err: Option<string>)
      requires Buffered() && events == [] && requests == [] && calls == 0
      modifies this
      ensures Buffered()
      ensures var o := Turn(world, history, userMessage, unresolved);
              events == o.events && requests == o.requests && msgs == o.msgs && err == o.err
    {
      hide OneRound, TextOf, Streamed, ToolEvents, ToolResults;
      msgs := history + [Msg(User, [Text(userMessage)])];
      if unresolved.Some? {
        Emit(Error(unresolved.value));
        return msgs, unresolved;
      }
      var i := 0;
      ghost var o := Rounds(world, 0, 0, msgs);
      assert [] + o.events == o.events && [] + o.requests == o.requests;
      while i < world.maxIters
        invariant Buffered()
        invariant After(events, requests, Rounds(world, i, calls, msgs)) == o
        decreases world.maxIters - i
      {
        AfterRound(world, i, calls, msgs, events, requests);
        var over;
        over, msgs, err := RunRound(i, msgs);
        if over {
          return;
        }
        i := i + 1;
      }
      Emit(Error(TOO_MANY));
      err := Some(TOO_MANY);
      assert requests + [] == requests;
    }
  }
}
