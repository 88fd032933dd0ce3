/** One chat request end to end: the turn on the server, the event stream, the user's transcript. */
module Chat {
  import opened Wrappers
  import opened Seqs
  import opened Utf8
  import AgentLoop
  import Sse
  import opened Transcript

  /** What the frames carry: the conversation, or an event of the turn. */
  datatype Payload = Conversation(id: int) | Agent(event: AgentLoop.Event)

  type Frame = Sse.Message<Payload>
  type Delivery = Sse.Delivery<Payload>

  function EventFrames(es: seq<AgentLoop.Event>): seq<Frame> {
    if es == [] then []
    else EventFrames(es[..|es| - 1]) + [Sse.Message(Sse.Event, Agent(es[|es| - 1]))]
  }

  /** The events of a request: those of its turn, and a last one if it failed with the client gone. */
  function RequestEvents(o: AgentLoop.Outcome, clientGone: bool): seq<AgentLoop.Event> {
    o.events + if o.err.Some? && clientGone then [AgentLoop.Cancelled] else []
  }

  function ChatFrames(conv: int, es: seq<AgentLoop.Event>): seq<Frame> {
    [Sse.Message(Sse.Meta, Conversation(conv))] + (EventFrames(es) + [Sse.Message(Sse.End, Conversation(conv))])
  }

  // ---- the server ------------------------------------------------------------

  /** `handleChat` once the conversation is known: meta, the turn's events, end; and the text saved. */
  method HandleChat(encode: Payload -> string, config: AgentLoop.World, history: seq<AgentLoop.Msg>, message: string,
                    unresolved: Option<string>, conv: int, clientGone: bool, response: Sse.ResponseWriter)
    returns (saved: Option<string>, ghost o: AgentLoop.Outcome)
    requires response.written == []
    modifies response
    ensures o == AgentLoop.Turn(Limited(config), history, message, unresolved)
    ensures response.written == Encode(Sse.PrintAll(encode, ChatFrames(conv, RequestEvents(o, clientGone))))
    ensures saved == var text := AgentLoop.TextOf(o.events); if text == "" then None else Some(text)
  {
    hide EventFrames, ChatFrames, RequestEvents, Encode, Sse.PrintAll, AgentLoop.TextOf, AgentLoop.Turn;
    o := AgentLoop.Turn(Limited(config), history, message, unresolved);
    var turn := new AgentLoop.ChatTurn(config);
    var meta, end := Sse.Message(Sse.Meta, Conversation(conv)), Sse.Message(Sse.End, Conversation(conv));
    response.SendAll(encode, [meta]);
    var msgs, err := turn.Run(history, message, unresolved);
    var events := EventFrames(turn.events);
    response.SendAll(encode, events);
    ghost var sent := [meta] + events;
    assert sent + [] == sent;
    WrittenSoFar(encode, [meta], events);
    if err.Some? && clientGone {
      var cancelled := Sse.Message(Sse.Event, Agent(AgentLoop.Cancelled));
      response.SendAll(encode, [cancelled]);
      WrittenSoFar(encode, sent, [cancelled]);
      sent := sent + [cancelled];
    }
    saved := if turn.assistantBuf == "" then None else Some(turn.assistantBuf);
    response.SendAll(encode, [end]);
    WrittenSoFar(encode, sent, [end]);
    FramesInOrder(conv, o, clientGone);
  }

  /** The limit of iterations a turn runs under. */
  function Limited(config: AgentLoop.World): AgentLoop.World {
    config.(maxIters := AgentLoop.Limit(config.maxIters))
  }

  lemma {:induction false} PrintAppend(encode: Payload -> string, a: seq<Frame>, b: seq<Frame>)
    ensures Sse.PrintAll(encode, a + b) == Sse.PrintAll(encode, a) + Sse.PrintAll(encode, b)
    decreases |a|
  {
    if a == [] {
      assert a + b == b;
    } else {
      assert (a + b)[1..] == a[1..] + b;
      PrintAppend(encode, a[1..], b);
      Assoc(Sse.Print(Sse.Name(a[0].kind), encode(a[0].data)), Sse.PrintAll(encode, a[1..]), Sse.PrintAll(encode, b));
    }
  }

  lemma WrittenSoFar(encode: Payload -> string, a: seq<Frame>, b: seq<Frame>)
    ensures Encode(Sse.PrintAll(encode, a + b)) == Encode(Sse.PrintAll(encode, a)) + Encode(Sse.PrintAll(encode, b))
  {
    PrintAppend(encode, a, b);
    EncodeAppend(Sse.PrintAll(encode, a), Sse.PrintAll(encode, b));
  }

  lemma FramesInOrder(conv: int, o: AgentLoop.Outcome, clientGone: bool)
    ensures var meta, end := Sse.Message(Sse.Meta, Conversation(conv)), Sse.Message(Sse.End, Conversation(conv));
            var cancelled := if o.err.Some? && clientGone then [Sse.Message(Sse.Event, Agent(AgentLoop.Cancelled))]
                             else [];
            [meta] + EventFrames(o.events) + cancelled + [end] == ChatFrames(conv, RequestEvents(o, clientGone))
  {
    if o.err.Some? && clientGone {
      assert RequestEvents(o, clientGone)[..|o.events|] == o.events;
    } else {
      assert RequestEvents(o, clientGone) == o.events;
    }
  }

  // ---- the client ------------------------------------------------------------

  /** What a delivery does to the transcript. */
  function Show(v: View, d: Delivery): View {
    if d.OnEvent? && d.data.Agent? then Apply(v, d.data.event) else v
  }

  function ShowAll(v: View, ds: seq<Delivery>): View {
    if ds == [] then v else Show(ShowAll(v, ds[..|ds| - 1]), ds[|ds| - 1])
  }

  /** The conversation the client takes part in after these deliveries, if it was in none before. */
  function Joined(ds: seq<Delivery>): Option<int> {
    if ds == [] then None
    else
      var d := ds[|ds| - 1];
      if d.OnMeta? && d.data.Conversation? then Some(d.data.id) else Joined(ds[..|ds| - 1])
  }

  /** How reading a response can end: the stream is done, or it breaks off - by the user or not. */
  datatype Ending = Closed | Aborted | Broken(message: string)

  class App {
    const drawer: Drawer
    const parse: string -> Option<Payload>
    var conversationID: Option<int>

    constructor (drawer: Drawer, parse: string -> Option<Payload>)
      ensures this.drawer == drawer && this.parse == parse && conversationID == None
    {
      this.drawer, this.parse, conversationID := drawer, parse, None;
    }

    /** The handlers given to the stream. */
    method Deliver(ds: seq<Delivery>)
      modifies this, drawer
      ensures drawer.State() == ShowAll(old(drawer.State()), ds)
      ensures conversationID == if old(conversationID).None? then Joined(ds) else old(conversationID)
    {
      var before := conversationID;
      for k := 0 to |ds|
        invariant drawer.State() == ShowAll(old(drawer.State()), ds[..k])
        invariant conversationID == if before.None? then Joined(ds[..k]) else before
      {
        assert ds[..k + 1][..k] == ds[..k];
        match ds[k] {
          case OnMeta(data) =>
            if before.None? && data.Conversation? {
              conversationID := Some(data.id);
            }
          case OnEvent(data) =>
            if data.Agent? {
              drawer.ApplyAgentEvent(data.event);
            }
          case OnEnd(_) =>
        }
      }
      assert ds[..|ds|] == ds;
    }

    /** `send`: the user's message, then whatever the response brings, then how it ended. */
    method Send(message: string, chunks: seq<seq<byte>>, ending: Ending)
      modifies this, drawer
      ensures var ds := Sse.ReadAll(parse, Sse.Stream([], "", []), chunks).delivered;
              var v: View := View(old(drawer.entries) + [UserEntry(message)], -1, map[]);
              && drawer.entries == ShowAll(v, ds).entries
                   + (match ending case Closed => [] case Aborted => [CancelledEntry] case Broken(m) => [ErrorEntry(m)])
              && conversationID == if old(conversationID).None? then Joined(ds) else old(conversationID)
    {
      drawer.Send(message);
      var stream := new Sse.ChatStream<Payload>(parse, _ => false);
      stream.ReadChunks(chunks);
      Deliver(stream.delivered);
      match ending {
        case Closed => assert drawer.entries + [] == drawer.entries;
        case Aborted => drawer.Append(CancelledEntry);
        case Broken(m) => drawer.Append(ErrorEntry(m));
      }
    }
  }

  // ---- end to end --------------------------------------------------------------

  function HandedEvents(es: seq<AgentLoop.Event>): seq<Delivery> {
    if es == [] then [] else HandedEvents(es[..|es| - 1]) + [Sse.OnEvent(Agent(es[|es| - 1]))]
  }

  lemma {:induction false} HandedAppend(a: seq<Frame>, b: seq<Frame>)
    ensures Sse.HandedAll(a + b) == Sse.HandedAll(a) + Sse.HandedAll(b)
    decreases |a|
  {
    if a == [] {
      assert a + b == b;
    } else {
      assert (a + b)[1..] == a[1..] + b;
      HandedAppend(a[1..], b);
    }
  }

  lemma {:induction false} EventsHanded(es: seq<AgentLoop.Event>)
    ensures Sse.HandedAll(EventFrames(es)) == HandedEvents(es)
  {
    if es != [] {
      var init, last := es[..|es| - 1], Sse.Message(Sse.Event, Agent(es[|es| - 1]));
      EventsHanded(init);
      HandedAppend(EventFrames(init), [last]);
      assert Sse.HandedAll([last]) == [Sse.Handed(last)] + Sse.HandedAll([last][1..]);
    }
  }

  lemma ChatHanded(conv: int, es: seq<AgentLoop.Event>)
    ensures Sse.HandedAll(ChatFrames(conv, es)) ==
            [Sse.OnMeta(Conversation(conv))] + (HandedEvents(es) + [Sse.OnEnd(Conversation(conv))])
  {
    var meta, end := Sse.Message(Sse.Meta, Conversation(conv)), Sse.Message(Sse.End, Conversation(conv));
    EventsHanded(es);
    HandedAppend(EventFrames(es), [end]);
    HandedAppend([meta], EventFrames(es) + [end]);
    assert Sse.HandedAll([end]) == [Sse.Handed(end)] + Sse.HandedAll([end][1..]);
    assert Sse.HandedAll([meta]) == [Sse.Handed(meta)] + Sse.HandedAll([meta][1..]);
  }

  lemma {:induction false} HandedPrefix(es: seq<AgentLoop.Event>, k: int)
    requires 0 <= k <= |es|
    ensures |HandedEvents(es)| == |es| && HandedEvents(es)[..k] == HandedEvents(es[..k])
    decreases |es|
  {
    if es != [] {
      var init := es[..|es| - 1];
      HandedPrefix(init, if k < |es| then k else |es| - 1);
      if k < |es| {
        assert es[..k] == init[..k];
      } else {
        assert es[..k] == es;
      }
    }
  }

  /** A meta frame, then these events, then whatever is no event: the transcript gets the events. */
  lemma {:induction false} EventsShown(v: View, conv: int, es: seq<AgentLoop.Event>)
    ensures var ds := [Sse.OnMeta(Conversation(conv))] + HandedEvents(es);
            ShowAll(v, ds) == ApplyAll(v, es) && Joined(ds) == Some(conv)
  {
    var meta: Delivery := Sse.OnMeta(Conversation(conv));
    var ds := [meta] + HandedEvents(es);
    if es == [] {
      assert ds == [meta] && ds[..0] == [];
    } else {
      var init := es[..|es| - 1];
      EventsShown(v, conv, init);
      assert ds[..|ds| - 1] == [meta] + HandedEvents(init);
    }
  }

  /** All of the response is read: the transcript gets all events, and the client is in the conversation. */
  lemma WholeShown(v: View, conv: int, es: seq<AgentLoop.Event>)
    ensures var ds := Sse.HandedAll(ChatFrames(conv, es));
            ShowAll(v, ds) == ApplyAll(v, es) && Joined(ds) == Some(conv)
  {
    var ds := Sse.HandedAll(ChatFrames(conv, es));
    ChatHanded(conv, es);
    EventsShown(v, conv, es);
    assert ds[..|ds| - 1] == [Sse.OnMeta(Conversation(conv))] + HandedEvents(es);
  }

  /** Some of it is read: the transcript gets the first events, in order. */
  lemma PartShown(v: View, conv: int, es: seq<AgentLoop.Event>, ds: seq<Delivery>)
    requires ds <= Sse.HandedAll(ChatFrames(conv, es))
    ensures exists n | 0 <= n <= |es| :: ShowAll(v, ds) == ApplyAll(v, es[..n])
  {
    ChatHanded(conv, es);
    HandedPrefix(es, 0);
    assert es[..0] == [] && es[..|es|] == es;
    if ds == [] {
      assert ShowAll(v, ds) == ApplyAll(v, es[..0]);
    } else if |ds| <= |es| + 1 {
      var n := |ds| - 1;
      HandedPrefix(es, n);
      assert ds == [Sse.OnMeta(Conversation(conv))] + HandedEvents(es[..n]);
      EventsShown(v, conv, es[..n]);
      assert ShowAll(v, ds) == ApplyAll(v, es[..n]);
    } else {
      assert ds == Sse.HandedAll(ChatFrames(conv, es));
      WholeShown(v, conv, es);
      assert ShowAll(v, ds) == ApplyAll(v, es[..|es|]);
    }
  }

  /** What a request adds to the transcript after the user's message. */
  function ShownRequest(w: AgentLoop.World, history: seq<AgentLoop.Msg>, message: string, unresolved: Option<string>,
                        clientGone: bool): seq<Entry> {
    ShownTurn(w, history, message, unresolved)
    + if AgentLoop.Turn(w, history, message, unresolved).err.Some? && clientGone then [CancelledEntry] else []
  }

  /** For any provider and tools, any history, and however the response is cut into chunks: the
      transcript is what it was, the user's message, and what the turn shows; the client is in the
      conversation; and the text the server saves is the assistant text added to the transcript. */
  method Converse(app: App, encode: Payload -> string, config: AgentLoop.World, history: seq<AgentLoop.Msg>,
                  message: string, unresolved: Option<string>, conv: int, clientGone: bool, chunks: seq<seq<byte>>)
    returns (saved: Option<string>)
    requires Sse.JsonCodec(encode, app.parse)
    requires var o := AgentLoop.Turn(Limited(config), history, message, unresolved);
             Sse.Flat(chunks) == Encode(Sse.PrintAll(encode, ChatFrames(conv, RequestEvents(o, clientGone))))
    modifies app, app.drawer
    ensures var added := ShownRequest(Limited(config), history, message, unresolved, clientGone);
            && app.drawer.entries == old(app.drawer.entries) + [UserEntry(message)] + added
            && saved == (if ShownText(added) == "" then None else Some(ShownText(added)))
    ensures app.conversationID == if old(app.conversationID).None? then Some(conv) else old(app.conversationID)
  {
    var response := new Sse.ResponseWriter();
    ghost var o;
    saved, o := HandleChat(encode, config, history, message, unresolved, conv, clientGone, response);
    app.Send(message, chunks, Closed);
    ChatShown(encode, app.parse, Limited(config), history, message, unresolved, conv, clientGone, chunks,
        old(app.drawer.entries) + [UserEntry(message)]);
  }

  lemma ChatShown(encode: Payload -> string, parse: string -> Option<Payload>, w: AgentLoop.World,
                  history: seq<AgentLoop.Msg>, message: string, unresolved: Option<string>, conv: int, clientGone: bool,
                  chunks: seq<seq<byte>>, shown: seq<Entry>)
    requires Sse.JsonCodec(encode, parse)
    requires var es := RequestEvents(AgentLoop.Turn(w, history, message, unresolved), clientGone);
             Sse.Flat(chunks) == Encode(Sse.PrintAll(encode, ChatFrames(conv, es)))
    ensures var ds := Sse.ReadAll(parse, Sse.Stream([], "", []), chunks).delivered;
            var added := ShownRequest(w, history, message, unresolved, clientGone);
            && ShowAll(View(shown, -1, map[]), ds).entries == shown + added && Joined(ds) == Some(conv)
            && ShownText(added) == AgentLoop.TextOf(AgentLoop.Turn(w, history, message, unresolved).events)
  {
    var o := AgentLoop.Turn(w, history, message, unresolved);
    var turn := ShownTurn(w, history, message, unresolved);
    Sse.StreamRoundTrip(encode, parse, ChatFrames(conv, RequestEvents(o, clientGone)), chunks);
    WholeShown(View(shown, -1, map[]), conv, RequestEvents(o, clientGone));
    TurnShown(w, history, message, unresolved, shown);
    ShownIsSaved(w, history, message, unresolved);
    if o.err.Some? && clientGone {
      Assoc(shown, turn, [CancelledEntry]);
      LastShown(turn, CancelledEntry);
    } else {
      assert o.events + [] == o.events && turn + [] == turn;
    }
  }

  /** The connection breaks anywhere: what was read showed the first of the events, in order, and nothing
      else; Send then adds the entry that says how it ended. */
  lemma BrokenChatShown(encode: Payload -> string, parse: string -> Option<Payload>, w: AgentLoop.World,
                        history: seq<AgentLoop.Msg>, message: string, unresolved: Option<string>, conv: int,
                        clientGone: bool, chunks: seq<seq<byte>>, lost: seq<byte>, shown: seq<Entry>)
    requires Sse.JsonCodec(encode, parse)
    requires var es := RequestEvents(AgentLoop.Turn(w, history, message, unresolved), clientGone);
             Sse.Flat(chunks) + lost == Encode(Sse.PrintAll(encode, ChatFrames(conv, es)))
    ensures var es := RequestEvents(AgentLoop.Turn(w, history, message, unresolved), clientGone);
            var v: View := View(shown, -1, map[]);
            exists n | 0 <= n <= |es| ::
              ShowAll(v, Sse.ReadAll(parse, Sse.Stream([], "", []), chunks).delivered) == ApplyAll(v, es[..n])
  {
    var es := RequestEvents(AgentLoop.Turn(w, history, message, unresolved), clientGone);
    Sse.BrokenStream(encode, parse, ChatFrames(conv, es), chunks, lost);
    PartShown(View(shown, -1, map[]), conv, es, Sse.ReadAll(parse, Sse.Stream([], "", []), chunks).delivered);
  }
}
