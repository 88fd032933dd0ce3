/** The chat drawer: a reducer that rebuilds the transcript from the event stream. */
module Transcript {
  import opened Seqs
  import opened Wrappers
  import opened AgentLoop

  /** `result` is undefined while the card is pending. */
  datatype Entry =
    | UserEntry(text: string)
    | AssistantEntry(text: string)
    | ToolEntry(name: string, input: string, result: Option<string>, isError: bool)
    | ErrorEntry(text: string)
    | CancelledEntry

  /** The server omits empty strings from the JSON of an event; the client then reads undefined. */
  function Sent(s: string): Option<string> {
    if s == "" then None else Some(s)
  }

  function OrElse(v: Option<string>, default: string): string {
    if v.Some? then v.value else default
  }

  datatype View = View(entries: seq<Entry>, assistantIndex: int, toolsByID: map<string, int>)

  predicate IsAssistantAt(entries: seq<Entry>, k: int) {
    0 <= k < |entries| && entries[k].AssistantEntry?
  }

  function Apply(v: View, e: Event): View {
    match e
    case TextEvent(t) =>
      if t == "" then v
      else if IsAssistantAt(v.entries, v.assistantIndex) then
        v.(entries := v.entries[v.assistantIndex := AssistantEntry(v.entries[v.assistantIndex].text + t)])
      else v.(entries := v.entries + [AssistantEntry(t)], assistantIndex := |v.entries|)
    case CallStarted(_, _) => v
    case Call(tool, id, input) =>
      View(v.entries + [ToolEntry(OrElse(Sent(tool), "tool"), OrElse(Sent(input), "{}"), None, false)], -1,
           if id == "" then v.toolsByID else v.toolsByID[id := |v.entries|])
    case Returned(_, id, result, isError) =>
      if id != "" && id in v.toolsByID && 0 <= v.toolsByID[id] < |v.entries|
          && v.entries[v.toolsByID[id]].ToolEntry? then
        var k := v.toolsByID[id];
        v.(entries := v.entries[k := ToolEntry(v.entries[k].name, v.entries[k].input, Sent(result), isError)])
      else v
    case Error(result) => v.(entries := v.entries + [ErrorEntry(OrElse(Sent(result), "unknown error"))])
    case Cancelled => v.(entries := v.entries + [CancelledEntry])
    case Done => v
  }

  function ApplyAll(v: View, events: seq<Event>): View {
    if events == [] then v else Apply(ApplyAll(v, events[..|events| - 1]), events[|events| - 1])
  }

  /** The drawer's mutable state: the entries array, and the two refs reset for every message sent. */
  class Drawer {
    var entries: seq<Entry>
    var assistantIndex: int
    var toolsByID: map<string, int>

    constructor (shown: seq<Entry>)
      ensures State() == View(shown, -1, map[])
    {
      entries, assistantIndex, toolsByID := shown, -1, map[];
    }

    ghost function State(): View
      reads this
    {
      View(entries, assistantIndex, toolsByID)
    }

    method Send(message: string)
      modifies this
      ensures State() == View(old(entries) + [UserEntry(message)], -1, map[])
    {
      assistantIndex, toolsByID := -1, map[];
      entries := entries + [UserEntry(message)];
    }

    /** An entry the client adds itself, when the response breaks off. */
    method Append(e: Entry)
      modifies this`entries
      ensures entries == old(entries) + [e]
    {
      entries := entries + [e];
    }

    method ApplyAgentEvent(ev: Event)
      modifies this
      ensures State() == Apply(old(State()), ev)
    {
      match ev {
        case TextEvent(t) =>
          if t == "" {
            return;
          }
          var idx := assistantIndex;
          if 0 <= idx < |entries| && entries[idx].AssistantEntry? {
            entries := entries[idx := AssistantEntry(entries[idx].text + t)];
          } else {
            entries := entries + [AssistantEntry(t)];
            assistantIndex := |entries| - 1;
          }
        case CallStarted(_, _) =>
        case Call(tool, id, input) =>
          assistantIndex := -1;
          entries := entries + [ToolEntry(OrElse(Sent(tool), "tool"), OrElse(Sent(input), "{}"), None, false)];
          if id != "" {
            toolsByID := toolsByID[id := |entries| - 1];
          }
        case Returned(_, id, result, isError) =>
          if id != "" && id in toolsByID {
            var idx := toolsByID[id];
            if 0 <= idx < |entries| && entries[idx].ToolEntry? {
              var prev := entries[idx];
              entries := entries[idx := ToolEntry(prev.name, prev.input, Sent(result), isError)];
            }
          }
        case Error(result) =>
          entries := entries + [ErrorEntry(OrElse(Sent(result), "unknown error"))];
        case Cancelled =>
          entries := entries + [CancelledEntry];
        case Done =>
      }
    }
  }

  // ---- what a turn looks like -----------------------------------------------

  /** The card of one finished call. A call without an id never gets its result, and an empty
      result leaves the card pending. */
  function Card(b: Block, r: Result<string, string>): Entry
    requires b.ToolUse?
  {
    ToolEntry(OrElse(Sent(b.name), "tool"), OrElse(Sent(b.input), "{}"),
              if b.id == "" then None else Sent(ResultText(r)), b.id != "" && r.Err?)
  }

  /** One card per call, in call order, each with that call's own result. */
  function Cards(w: World, calls: nat, content: seq<Block>): seq<Entry> {
    if content == [] then []
    else
      var init, b := content[..|content| - 1], content[|content| - 1];
      Cards(w, calls, init)
      + if b.ToolUse? then [Card(b, CallResult(w, calls + |Uses(init)|, b.name, b.input))] else []
  }

  lemma {:induction false} UsesAreCalls(content: seq<Block>)
    ensures forall k | 0 <= k < |Uses(content)| :: Uses(content)[k].ToolUse?
  {
    if content != [] { UsesAreCalls(content[..|content| - 1]); }
  }

  /** The k-th card belongs to the k-th call and to no other: its own result and error flag, except
      that a call without an id stays pending and so does one whose result is empty. */
  lemma {:induction false} CardPerCall(w: World, calls: nat, content: seq<Block>, k: int)
    requires 0 <= k < |Uses(content)|
    ensures |Cards(w, calls, content)| == |Uses(content)| && Uses(content)[k].ToolUse?
    ensures var b, c := Uses(content)[k], Cards(w, calls, content)[k];
            var r := CallResult(w, calls + k, b.name, b.input);
            && c == Card(b, r) && c.ToolEntry?
            && c.name == (if b.name == "" then "tool" else b.name)
            && c.input == (if b.input == "" then "{}" else b.input)
            && (c.result == Some(ResultText(r)) <==> b.id != "" && ResultText(r) != "")
            && (c.isError == r.Err? <==> b.id != "" || r.Ok?)
  {
    CardCount(w, calls, content);
    UsesAreCalls(content);
    var init := content[..|content| - 1];
    if k < |Uses(init)| { CardPerCall(w, calls, init, k); }
    CardCount(w, calls, init);
  }

  lemma {:induction false} CardCount(w: World, calls: nat, content: seq<Block>)
    ensures |Cards(w, calls, content)| == |Uses(content)|
  {
    if content != [] { CardCount(w, calls, content[..|content| - 1]); }
  }

  function Bubble(text: string): seq<Entry> {
    if text == "" then [] else [AssistantEntry(text)]
  }

  /** A turn as the user should see it: per round the text in one bubble, then the cards; last an error, if any. */
  function Shown(w: World, i: int, calls: nat, msgs: seq<Msg>): seq<Entry>
    decreases w.maxIters - i
  {
    if i >= w.maxIters then [ErrorEntry(TOO_MANY)]
    else
      match w.provider(i, msgs)
      case Failed(s, e) => Bubble(TextOf(Streamed(s))) + [ErrorEntry(OrElse(Sent(e), "unknown error"))]
      case Replied(s, toolUse, content) =>
        Bubble(TextOf(Streamed(s))) + Cards(w, calls, content)
        + match OneRound(w, i, calls, msgs)
          case Stop(_, _, err) => if toolUse then [ErrorEntry(NO_BLOCKS)] else []
          case Continue(_, ms, n) => Shown(w, i + 1, n, ms)
  }

  // ---- the reducer shows it -------------------------------------------------

  lemma {:induction false} ApplyInParts(v: View, a: seq<Event>, b: seq<Event>)
    ensures ApplyAll(v, a + b) == ApplyAll(ApplyAll(v, a), b)
    decreases |b|
  {
    if b == [] {
      assert a + b == a;
    } else {
      assert (a + b)[..|a + b| - 1] == a + b[..|b| - 1];
      ApplyInParts(v, a, b[..|b| - 1]);
    }
  }

  /** A view whose open bubble, if any, holds `t`. */
  function Open(es: seq<Entry>, t: string, m: map<string, int>): View {
    View(es + Bubble(t), if t == "" then -1 else |es|, m)
  }

  lemma TextStep(es: seq<Entry>, t: string, m: map<string, int>, more: string)
    ensures Apply(Open(es, t, m), TextEvent(more)) == Open(es, t + more, m)
  {
    if t == "" {
      assert t + more == more && es + [] == es;
    } else if more == "" {
      assert t + more == t;
    } else {
      assert (es + [AssistantEntry(t)])[|es| := AssistantEntry(t + more)] == es + [AssistantEntry(t + more)];
    }
  }

  lemma LastEvent(v: View, events: seq<Event>, e: Event)
    ensures ApplyAll(v, events + [e]) == Apply(ApplyAll(v, events), e)
  {
    assert (events + [e])[..|events|] == events;
  }

  lemma LastText(events: seq<Event>, e: Event)
    ensures TextOf(events + [e]) == TextOf(events) + match e case TextEvent(t) => t case _ => ""
  {
    assert (events + [e])[..|events|] == events;
  }

  /** Streamed text collects in one new bubble. */
  lemma {:induction false} StreamShown(es: seq<Entry>, m: map<string, int>, s: seq<StreamEvent>)
    ensures ApplyAll(Open(es, "", m), Streamed(s)) == Open(es, TextOf(Streamed(s)), m)
  {
    if s != [] {
      var init := Streamed(s[..|s| - 1]);
      StreamShown(es, m, s[..|s| - 1]);
      match s[|s| - 1] {
        case TextDelta(t) =>
          LastEvent(Open(es, "", m), init, TextEvent(t));
          LastText(init, TextEvent(t));
          TextStep(es, TextOf(init), m, t);
        case ToolCallStart(n, id) =>
          LastEvent(Open(es, "", m), init, CallStarted(n, id));
          LastText(init, CallStarted(n, id));
          assert TextOf(init) + "" == TextOf(init);
        case OtherDelta =>
          assert Streamed(s) == init;
      }
    }
  }

  /** The two events of one call. */
  function Pair(b: Block, r: Result<string, string>): seq<Event>
    requires b.ToolUse?
  {
    [Call(b.name, b.id, b.input), Returned(b.name, b.id, ResultText(r), r.Err?)]
  }

  /** A call's pair of events adds its card, whatever ids were used before. */
  lemma PairShown(v: View, before: seq<Event>, b: Block, r: Result<string, string>)
    requires b.ToolUse?
    ensures var u := ApplyAll(v, before + Pair(b, r));
            u.entries == ApplyAll(v, before).entries + [Card(b, r)] && u.assistantIndex == -1
    ensures TextOf(before + Pair(b, r)) == TextOf(before)
  {
    var x, y := Pair(b, r)[0], Pair(b, r)[1];
    assert before + Pair(b, r) == before + [x] + [y];
    LastEvent(v, before, x);
    LastEvent(v, before + [x], y);
    LastText(before, x);
    LastText(before + [x], y);
    OneCard(ApplyAll(v, before), b, r);
  }

  lemma OneCard(v: View, b: Block, r: Result<string, string>)
    requires b.ToolUse?
    ensures var u := Apply(Apply(v, Pair(b, r)[0]), Pair(b, r)[1]);
            u.entries == v.entries + [Card(b, r)] && u.assistantIndex == -1
  {
  }

  lemma {:induction false} ToolsShown(w: World, calls: nat, content: seq<Block>, v: View)
    ensures var u := ApplyAll(v, ToolEvents(w, calls, content));
            && u.entries == v.entries + Cards(w, calls, content)
            && (if Uses(content) == [] then u.assistantIndex == v.assistantIndex else u.assistantIndex == -1)
    ensures TextOf(ToolEvents(w, calls, content)) == ""
  {
    if content != [] {
      var init, b := content[..|content| - 1], content[|content| - 1];
      ToolsShown(w, calls, init, v);
      var before, cards := ToolEvents(w, calls, init), Cards(w, calls, init);
      if b.ToolUse? {
        var r := CallResult(w, calls + |Uses(init)|, b.name, b.input);
        PairShown(v, before, b, r);
        assert ToolEvents(w, calls, content) == before + Pair(b, r);
        assert v.entries + cards + [Card(b, r)] == v.entries + (cards + [Card(b, r)]);
      } else {
        assert ToolEvents(w, calls, content) == before && Cards(w, calls, content) == cards;
      }
    }
  }

  /** The events of one round, from a view with no bubble open. */
  lemma RoundShown(w: World, i: int, calls: nat, msgs: seq<Msg>, s: seq<StreamEvent>, content: seq<Block>, v: View)
    requires v.assistantIndex == -1
    ensures var u := ApplyAll(v, Streamed(s) + ToolEvents(w, calls, content));
            && u.entries == v.entries + Bubble(TextOf(Streamed(s))) + Cards(w, calls, content)
            && (Uses(content) != [] ==> u.assistantIndex == -1)
  {
    StreamShown(v.entries, v.toolsByID, s);
    assert v.entries + [] == v.entries;
    ApplyInParts(v, Streamed(s), ToolEvents(w, calls, content));
    ToolsShown(w, calls, content, ApplyAll(v, Streamed(s)));
  }

  lemma {:induction false} NoUsesNoResults(w: World, calls: nat, content: seq<Block>)
    ensures |ToolResults(w, calls, content)| == |Uses(content)|
  {
    if content != [] { NoUsesNoResults(w, calls, content[..|content| - 1]); }
  }

  lemma {:induction false} RoundsShown(w: World, i: int, calls: nat, msgs: seq<Msg>, v: View)
    requires v.assistantIndex == -1
    ensures ApplyAll(v, Rounds(w, i, calls, msgs).events).entries == v.entries + Shown(w, i, calls, msgs)
    decreases w.maxIters - i
  {
    if i >= w.maxIters {
      LastEvent(v, [], Error(TOO_MANY));
      assert [] + [Error(TOO_MANY)] == [Error(TOO_MANY)];
    } else {
      match w.provider(i, msgs) {
        case Failed(s, e) =>
          StreamShown(v.entries, v.toolsByID, s);
          assert v.entries + [] == v.entries;
          LastEvent(v, Streamed(s), Error(e));
        case Replied(s, toolUse, content) =>
          RepliedShown(w, i, calls, msgs, v);
          if OneRound(w, i, calls, msgs).Continue? {
            var r := OneRound(w, i, calls, msgs);
            RoundsShown(w, i + 1, r.calls, r.msgs, ApplyAll(v, r.events));
            ApplyInParts(v, r.events, Rounds(w, i + 1, r.calls, r.msgs).events);
            Assoc(v.entries, Bubble(TextOf(Streamed(s))) + Cards(w, calls, content), Shown(w, i + 1, r.calls, r.msgs));
            Assoc(v.entries, Bubble(TextOf(Streamed(s))), Cards(w, calls, content));
          } else {
            Assoc(v.entries, Bubble(TextOf(Streamed(s))) + Cards(w, calls, content), if toolUse then
                [ErrorEntry(NO_BLOCKS)] else []);
            Assoc(v.entries, Bubble(TextOf(Streamed(s))), Cards(w, calls, content));
          }
      }
    }
  }

  lemma RepliedShown(w: World, i: int, calls: nat, msgs: seq<Msg>, v: View)
    requires v.assistantIndex == -1 && i < w.maxIters && w.provider(i, msgs).Replied?
    ensures var reply := w.provider(i, msgs);
            var base := v.entries + Bubble(TextOf(Streamed(reply.stream))) + Cards(w, calls, reply.content);
            var u := ApplyAll(v, OneRound(w, i, calls, msgs).events);
            if OneRound(w, i, calls, msgs).Stop? then
                u.entries == base + (if reply.toolUse then [ErrorEntry(NO_BLOCKS)] else [])
            else u.entries == base && u.assistantIndex == -1
  {
    var reply := w.provider(i, msgs);
    var es := Streamed(reply.stream) + ToolEvents(w, calls, reply.content);
    RoundShown(w, i, calls, msgs, reply.stream, reply.content, v);
    NoUsesNoResults(w, calls, reply.content);
    LastEvent(v, es, Done);
    LastEvent(v, es, Error(NO_BLOCKS));
  }

  function ShownTurn(w: World, history: seq<Msg>, userMessage: string, unresolved: Option<string>): seq<Entry> {
    if unresolved.Some? then [ErrorEntry(OrElse(Sent(unresolved.value), "unknown error"))]
    else Shown(w, 0, 0, history + [Msg(User, [Text(userMessage)])])
  }

  /** The drawer leaves everything shown before a turn as it was and adds exactly what the turn
      shows; if the server then reports a cancellation, a last entry says so. */
  lemma TurnShown(w: World, history: seq<Msg>, userMessage: string, unresolved: Option<string>, shown: seq<Entry>)
    ensures var events := Turn(w, history, userMessage, unresolved).events;
            var all := shown + ShownTurn(w, history, userMessage, unresolved);
            && ApplyAll(View(shown, -1, map[]), events).entries == all
            && ApplyAll(View(shown, -1, map[]), events + [Cancelled]).entries == all + [CancelledEntry]
  {
    var v: View := View(shown, -1, map[]);
    var events := Turn(w, history, userMessage, unresolved).events;
    LastEvent(v, events, Cancelled);
    if unresolved.Some? {
      LastEvent(v, [], Error(unresolved.value));
      assert [] + events == events;
    } else {
      RoundsShown(w, 0, 0, history + [Msg(User, [Text(userMessage)])], v);
    }
  }

  /** A turn that ends in an error shows it last, whatever it shows before. */
  lemma ErrorShownLast(v: View, events: seq<Event>, e: string)
    requires events != [] && events[|events| - 1] == Error(e)
    ensures var es := ApplyAll(v, events).entries;
            es != [] && es[|es| - 1] == ErrorEntry(if e == "" then "unknown error" else e)
  {
  }

  // ---- the text the user sees is the text the server saves --------------------

  function ShownText(es: seq<Entry>): string {
    if es == [] then ""
    else ShownText(es[..|es| - 1]) + if es[|es| - 1].AssistantEntry? then es[|es| - 1].text else ""
  }

  lemma {:induction false} ShownTextAppend(a: seq<Entry>, b: seq<Entry>)
    ensures ShownText(a + b) == ShownText(a) + ShownText(b)
    decreases |b|
  {
    if b == [] {
      assert a + b == a;
    } else {
      assert (a + b)[..|a + b| - 1] == a + b[..|b| - 1];
      ShownTextAppend(a, b[..|b| - 1]);
    }
  }

  lemma BubbleText(t: string)
    ensures ShownText(Bubble(t)) == t
  {
    assert Bubble(t) != [] ==> Bubble(t)[..0] == [];
  }

  lemma {:induction false} CardsTextless(w: World, calls: nat, content: seq<Block>)
    ensures ShownText(Cards(w, calls, content)) == ""
  {
    if content != [] {
      var init, b := content[..|content| - 1], content[|content| - 1];
      CardsTextless(w, calls, init);
      var cards := Cards(w, calls, init);
      if b.ToolUse? {
        LastShown(cards, Card(b, CallResult(w, calls + |Uses(init)|, b.name, b.input)));
      } else {
        assert Cards(w, calls, content) == cards;
      }
    }
  }

  lemma LastShown(es: seq<Entry>, e: Entry)
    ensures ShownText(es + [e]) == ShownText(es) + if e.AssistantEntry? then e.text else ""
  {
    assert (es + [e])[..|es|] == es;
  }

  lemma {:induction false} RoundsText(w: World, i: int, calls: nat, msgs: seq<Msg>)
    ensures ShownText(Shown(w, i, calls, msgs)) == TextOf(Rounds(w, i, calls, msgs).events)
    decreases w.maxIters - i
  {
    if i >= w.maxIters {
      LastShown([], ErrorEntry(TOO_MANY));
      LastText([], Error(TOO_MANY));
      assert [] + [ErrorEntry(TOO_MANY)] == [ErrorEntry(TOO_MANY)] && [] + [Error(TOO_MANY)] == [Error(TOO_MANY)];
    } else {
      match w.provider(i, msgs) {
        case Failed(s, e) =>
          LastShown(Bubble(TextOf(Streamed(s))), ErrorEntry(OrElse(Sent(e), "unknown error")));
          BubbleText(TextOf(Streamed(s)));
          LastText(Streamed(s), Error(e));
        case Replied(s, toolUse, content) =>
          RepliedText(w, i, calls, msgs);
          var r := OneRound(w, i, calls, msgs);
          if r.Continue? {
            RoundsText(w, i + 1, r.calls, r.msgs);
            TextOfAppend(r.events, Rounds(w, i + 1, r.calls, r.msgs).events);
            ShownTextAppend(Bubble(TextOf(Streamed(s))) + Cards(w, calls, content), Shown(w, i + 1, r.calls, r.msgs));
          } else {
            var base := Bubble(TextOf(Streamed(s))) + Cards(w, calls, content);
            assert base + [] == base;
            assert Shown(w, i, calls, msgs) == base + if toolUse then [ErrorEntry(NO_BLOCKS)] else [];
          }
      }
    }
  }

  lemma RepliedText(w: World, i: int, calls: nat, msgs: seq<Msg>)
    requires i < w.maxIters && w.provider(i, msgs).Replied?
    ensures var reply := w.provider(i, msgs);
            var base := Bubble(TextOf(Streamed(reply.stream))) + Cards(w, calls, reply.content);
            && ShownText(base) == TextOf(OneRound(w, i, calls, msgs).events)
            && ShownText(base + [ErrorEntry(NO_BLOCKS)]) == ShownText(base)
  {
    var reply := w.provider(i, msgs);
    var s, t := Streamed(reply.stream), ToolEvents(w, calls, reply.content);
    var bubble := Bubble(TextOf(s));
    BubbleText(TextOf(s));
    CardsTextless(w, calls, reply.content);
    ShownTextAppend(bubble, Cards(w, calls, reply.content));
    ToolsShown(w, calls, reply.content, View([], -1, map[]));
    TextOfAppend(s, t);
    LastText(s + t, Done);
    LastText(s + t, Error(NO_BLOCKS));
    LastShown(bubble + Cards(w, calls, reply.content), ErrorEntry(NO_BLOCKS));
  }

  /** The assistant text a turn adds to the transcript is the text the server saves for it. */
  lemma ShownIsSaved(w: World, history: seq<Msg>, userMessage: string, unresolved: Option<string>)
    ensures ShownText(ShownTurn(w, history, userMessage, unresolved)) ==
            TextOf(Turn(w, history, userMessage, unresolved).events)
  {
    if unresolved.Some? {
      LastShown([], ErrorEntry(OrElse(Sent(unresolved.value), "unknown error")));
      LastText([], Error(unresolved.value));
      assert [] + ShownTurn(w, history, userMessage, unresolved) == ShownTurn(w, history, userMessage, unresolved);
      assert [] + [Error(unresolved.value)] == [Error(unresolved.value)];
    } else {
      RoundsText(w, 0, 0, history + [Msg(User, [Text(userMessage)])]);
    }
  }
}
