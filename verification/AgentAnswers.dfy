/** What a turn tells the model and the user: every tool call answered with what the tool gave, the
    same answers in requests and events, the text that was streamed, and how the turn goes on and ends. */
module AgentAnswers {
  import opened Seqs
  import opened Wrappers
  import opened AgentLoop
  import opened AgentTheorems

  /** How many tool calls a message makes. */
  function UseCount(content: seq<Block>): nat {
    if content == [] then 0 else UseCount(content[..|content| - 1]) + if content[|content| - 1].ToolUse? then 1 else 0
  }

  /** How many tool calls a history makes. */
  function CallsMade(ms: seq<Msg>): nat {
    if ms == [] then 0 else CallsMade(ms[..|ms| - 1]) + UseCount(ms[|ms| - 1].content)
  }

  /** What call number `n` of the turn gives, made by block `b`: the tool's own result or error, or
      that there is no such tool. */
  predicate IsAnswer(w: World, n: nat, b: Block, id: string, text: string, isError: bool)
    requires b.ToolUse?
  {
    && id == b.id
    && if b.name !in w.registered then text == "unknown tool: " + b.name && isError
       else
         match w.tool(n, b.name, b.input)
         case Ok(s) => text == s && !isError
         case Err(e) => text == e && isError
  }

  /** If message `i` is the assistant's and calls tools, the next one is the user's and holds exactly one
      result per call, in the order of the calls, each the answer to its own call. */
  predicate ToolsAnswerAt(w: World, ms: seq<Msg>, i: int)
    requires 0 <= i < |ms|
  {
    ms[i].role == Assistant && UseCount(ms[i].content) > 0 ==>
      i + 1 < |ms| && ms[i + 1].role == User && Answers(w, CallsMade(ms[..i]), ms[i].content, ms[i + 1].content)
  }

  predicate ToolsAnswer(w: World, ms: seq<Msg>) {
    forall i | 0 <= i < |ms| :: ToolsAnswerAt(w, ms, i)
  }

  // ---- one message -------------------------------------------------------------

  predicate IsResult(w: World, n: nat, b: Block, r: Block) {
    b.ToolUse? && r.ToolResult? && IsAnswer(w, n, b, r.id, r.text, r.isError)
  }

  /** `rs` are the answers to the calls of `content`, one each and in order, the first of them being call
      number `calls` of the turn: the last answers the last call, and so on back. */
  predicate Answers(w: World, calls: nat, content: seq<Block>, rs: seq<Block>) {
    if content == [] then rs == []
    else
      var init, b := content[..|content| - 1], content[|content| - 1];
      if !b.ToolUse? then Answers(w, calls, init, rs)
      else rs != [] && IsResult(w, calls + |rs| - 1, b, rs[|rs| - 1]) && Answers(w, calls, init, rs[..|rs| - 1])
  }

  /** So the k-th of them answers the k-th call. */
  lemma {:induction false} KthAnswer(w: World, calls: nat, content: seq<Block>, rs: seq<Block>, j: int)
    requires Answers(w, calls, content, rs) && 0 <= j < |content| && content[j].ToolUse?
    ensures |rs| == UseCount(content)
    ensures var k := UseCount(content[..j]);
            k < |rs| && IsResult(w, calls + k, content[j], rs[k])
    decreases |content|
  {
    var init := content[..|content| - 1];
    AnswersSize(w, calls, content, rs);
    if j < |init| {
      assert init[j] == content[j] && init[..j] == content[..j];
      KthAnswer(w, calls, init, if content[|init|].ToolUse? then rs[..|rs| - 1] else rs, j);
    } else {
      AnswersSize(w, calls, init, rs[..|rs| - 1]);
    }
  }

  lemma {:induction false} AnswersSize(w: World, calls: nat, content: seq<Block>, rs: seq<Block>)
    requires Answers(w, calls, content, rs)
    ensures |rs| == UseCount(content) && UseCount(rs) == 0
    decreases |content|
  {
    if content != [] {
      var b := content[|content| - 1];
      AnswersSize(w, calls, content[..|content| - 1], if b.ToolUse? then rs[..|rs| - 1] else rs);
    }
  }

  lemma {:induction false} ResultsAnswer(w: World, calls: nat, content: seq<Block>)
    ensures var rs := ToolResults(w, calls, content);
            |rs| == |Uses(content)| && Answers(w, calls, content, rs)
  {
    if content != [] {
      var init, b := content[..|content| - 1], content[|content| - 1];
      var rs, prev := ToolResults(w, calls, content), ToolResults(w, calls, init);
      ResultsAnswer(w, calls, init);
      if b.ToolUse? {
        assert rs[..|rs| - 1] == prev;
      } else {
        assert rs == prev;
      }
    }
  }

  predicate IsReport(w: World, n: nat, b: Block, called: Event, gave: Event) {
    && b.ToolUse? && called.Call? && called.tool == b.name && called.id == b.id && called.input == b.input
    && gave.Returned? && gave.tool == b.name && IsAnswer(w, n, b, gave.id, gave.result, gave.isError)
  }

  /** What a round reports of its calls: for each, in order, what was called and then what it gave. */
  predicate Reports(w: World, calls: nat, content: seq<Block>, es: seq<Event>) {
    if content == [] then es == []
    else
      var init, b, n := content[..|content| - 1], content[|content| - 1], |es|;
      if !b.ToolUse? then Reports(w, calls, init, es)
      else
        && n >= 2 && IsReport(w, calls + UseCount(init), b, es[n - 2], es[n - 1])
        && Reports(w, calls, init, es[..n - 2])
  }

  lemma {:induction false} CallsReported(w: World, calls: nat, content: seq<Block>)
    ensures var es := ToolEvents(w, calls, content);
            |es| == 2 * UseCount(content) && Reports(w, calls, content, es)
  {
    if content != [] {
      var init, b := content[..|content| - 1], content[|content| - 1];
      var es, prev := ToolEvents(w, calls, content), ToolEvents(w, calls, init);
      CallsReported(w, calls, init);
      ResultsAnswer(w, calls, init);
      AnswersSize(w, calls, init, ToolResults(w, calls, init));
      if b.ToolUse? {
        assert es[..|es| - 2] == prev;
      } else {
        assert es == prev;
      }
    }
  }

  /** After the events of its stream, a round reports each call of the reply and what it gave; then it
      ends the turn with one event, or goes on. */
  lemma RoundReports(w: World, i: int, calls: nat, ms: seq<Msg>)
    requires w.provider(i, ms).Replied?
    ensures var reply, es := w.provider(i, ms), OneRound(w, i, calls, ms).events;
            var n, m := |Streamed(reply.stream)|, 2 * UseCount(reply.content);
            && n + m <= |es| && es[..n] == Streamed(reply.stream) && Reports(w, calls, reply.content, es[n..n + m])
            && (if OneRound(w, i, calls, ms).Continue? then |es| == n + m else |es| == n + m + 1)
  {
    var reply, es := w.provider(i, ms), OneRound(w, i, calls, ms).events;
    var s, t := Streamed(reply.stream), ToolEvents(w, calls, reply.content);
    CallsReported(w, calls, reply.content);
    hide Reports, Streamed, ToolEvents, ToolResults, UseCount;
    if es == s + t {
      ThreeParts(s, t, []);
    } else {
      ThreeParts(s, t, [es[|es| - 1]]);
    }
  }

  lemma ThreeParts<T>(a: seq<T>, b: seq<T>, c: seq<T>)
    ensures var s := a + b + c;
            s[..|a|] == a && s[|a|..|a| + |b|] == b && (c == [] ==> s == a + b)
  {
  }

  /** The events of a stream: one per text delta and per announced call, in order, nothing for the rest. */
  lemma {:induction false} StreamReported(s: seq<StreamEvent>, j: int)
    requires 0 <= j < |s|
    ensures var k := |Streamed(s[..j])|;
            && k <= |Streamed(s)| && Streamed(s)[..k] == Streamed(s[..j])
            && (s[j].TextDelta? ==> k < |Streamed(s)| && Streamed(s)[k] == TextEvent(s[j].text))
            && (s[j].ToolCallStart? ==> k < |Streamed(s)| && Streamed(s)[k] == CallStarted(s[j].name, s[j].id))
            && (j == |s| - 1 ==> |Streamed(s)| == k + if s[j].OtherDelta? then 0 else 1)
    decreases |s|
  {
    var init := s[..|s| - 1];
    if j < |init| {
      StreamReported(init, j);
      assert init[j] == s[j] && init[..j] == s[..j];
      assert Streamed(s)[..|Streamed(init)|] == Streamed(init);
    }
  }

  // ---- every request of a turn --------------------------------------------------

  lemma {:induction false} TextMakesNoCalls(ms: seq<Msg>)
    requires TextOnly(ms)
    ensures CallsMade(ms) == 0 && forall i | 0 <= i < |ms| :: UseCount(ms[i].content) == 0
  {
    if ms != [] {
      TextMakesNoCalls(ms[..|ms| - 1]);
      NoUses(ms[|ms| - 1].content);
    }
  }

  lemma {:induction false} NoUses(content: seq<Block>)
    requires forall b | b in content :: b.Text?
    ensures UseCount(content) == 0
  {
    if content != [] {
      assert content[|content| - 1] in content;
      NoUses(content[..|content| - 1]);
    }
  }

  lemma OneMoreMsg(ms: seq<Msg>, m: Msg)
    ensures CallsMade(ms + [m]) == CallsMade(ms) + UseCount(m.content)
  {
    assert (ms + [m])[..|ms|] == ms;
  }

  /** The last message of a history that may be sent makes no calls. */
  predicate Sendable(w: World, ms: seq<Msg>) {
    ToolsAnswer(w, ms) && |ms| > 0 && ms[|ms| - 1].role == User
  }

  lemma RoundAnswers(w: World, i: int, ms: seq<Msg>)
    requires Sendable(w, ms) && OneRound(w, i, CallsMade(ms), ms).Continue?
    ensures var r := OneRound(w, i, CallsMade(ms), ms);
            Sendable(w, r.msgs) && r.calls == CallsMade(r.msgs)
  {
    var content, calls := w.provider(i, ms).content, CallsMade(ms);
    var rs := ToolResults(w, calls, content);
    var said := ms + [Msg(Assistant, content)];
    var next := said + [Msg(User, rs)];
    ResultsAnswer(w, calls, content);
    AnswersSize(w, calls, content, rs);
    OneMoreMsg(ms, Msg(Assistant, content));
    OneMoreMsg(said, Msg(User, rs));
    assert OneRound(w, i, calls, ms).msgs == next;
    hide ToolResults, Uses, Answers, CallsMade, OneRound;
    forall k | 0 <= k < |next| ensures ToolsAnswerAt(w, next, k) {
      if k < |ms| {
        assert ToolsAnswerAt(w, ms, k);
        assert next[k] == ms[k] && next[..k] == ms[..k];
        if k + 1 < |ms| { assert next[k + 1] == ms[k + 1]; }
      } else if k == |ms| {
        assert next[..k] == ms && next[k + 1] == Msg(User, rs);
      }
    }
  }

  predicate AllAnswered(w: World, requests: seq<seq<Msg>>) {
    forall k | 0 <= k < |requests| :: ToolsAnswer(w, requests[k])
  }

  lemma {:induction false} RoundsAnswer(w: World, i: int, ms: seq<Msg>)
    requires Sendable(w, ms)
    ensures AllAnswered(w, Rounds(w, i, CallsMade(ms), ms).requests)
    decreases w.maxIters - i
  {
    hide Sendable, ToolsAnswer, OneRound;
    assert ToolsAnswer(w, ms) by { AnsweredSoFar(w, ms); }
    if i < w.maxIters && OneRound(w, i, CallsMade(ms), ms).Continue? {
      RoundAnswers(w, i, ms);
      RoundsAnswer(w, i + 1, OneRound(w, i, CallsMade(ms), ms).msgs);
    }
  }

  lemma AnsweredSoFar(w: World, ms: seq<Msg>)
    requires Sendable(w, ms)
    ensures ToolsAnswer(w, ms)
  {
  }

  /** In every request of a turn, whatever the provider and the tools do, the k-th block of the user
      message after an assistant message with tool calls is what the tool gave for the k-th call - its
      text or its error, and the flag that tells them apart - or that there is no such tool. */
  lemma EveryCallGetsItsAnswer(w: World, history: seq<Msg>, userMessage: string, unresolved: Option<string>)
    requires TextOnly(history)
    ensures AllAnswered(w, Turn(w, history, userMessage, unresolved).requests)
  {
    var ms := history + [Msg(User, [Text(userMessage)])];
    TextMakesNoCalls(ms);
    if unresolved.None? { RoundsAnswer(w, 0, ms); }
  }

  // ---- requests and events tell the same --------------------------------------------

  datatype Told = Told(id: string, text: string, isError: bool)

  function ResultsIn(content: seq<Block>): seq<Told> {
    if content == [] then []
    else
      var b := content[|content| - 1];
      ResultsIn(content[..|content| - 1]) + if b.ToolResult? then [Told(b.id, b.text, b.isError)] else []
  }

  /** All tool results in the user messages of a history, in order. */
  function ToldModel(ms: seq<Msg>): seq<Told> {
    if ms == [] then []
    else ToldModel(ms[..|ms| - 1]) + if ms[|ms| - 1].role == User then ResultsIn(ms[|ms| - 1].content) else []
  }

  /** All tool results among the events, in order. */
  function ToldUser(events: seq<Event>): seq<Told> {
    if events == [] then []
    else
      var e := events[|events| - 1];
      ToldUser(events[..|events| - 1]) + if e.Returned? then [Told(e.id, e.result, e.isError)] else []
  }

  lemma {:induction false} ToldAppend(a: seq<Event>, b: seq<Event>)
    ensures ToldUser(a + b) == ToldUser(a) + ToldUser(b)
    decreases |b|
  {
    if b == [] {
      assert a + b == a;
    } else {
      LastOf(a, b);
      ToldAppend(a, b[..|b| - 1]);
    }
  }

  lemma {:induction false} StreamTellsNothing(s: seq<StreamEvent>)
    ensures ToldUser(Streamed(s)) == []
  {
    if s != [] {
      StreamTellsNothing(s[..|s| - 1]);
      var init := Streamed(s[..|s| - 1]);
      match s[|s| - 1]
      case TextDelta(t) => assert (init + [TextEvent(t)])[..|init|] == init;
      case ToolCallStart(n, id) => assert (init + [CallStarted(n, id)])[..|init|] == init;
      case OtherDelta => assert Streamed(s) == init;
    }
  }

  lemma {:induction false} SameTold(w: World, calls: nat, content: seq<Block>)
    ensures ToldUser(ToolEvents(w, calls, content)) == ResultsIn(ToolResults(w, calls, content))
  {
    if content != [] {
      var init := content[..|content| - 1];
      SameTold(w, calls, init);
      OneMoreTold(w, calls, content);
    }
  }

  lemma OneMoreTold(w: World, calls: nat, content: seq<Block>)
    requires content != []
    ensures var init, b := content[..|content| - 1], content[|content| - 1];
            var told := if b.ToolUse? then
                          var r := CallResult(w, calls + |Uses(init)|, b.name, b.input);
                          [Told(b.id, ResultText(r), r.Err?)]
                        else [];
            && ToldUser(ToolEvents(w, calls, content)) == ToldUser(ToolEvents(w, calls, init)) + told
            && ResultsIn(ToolResults(w, calls, content)) == ResultsIn(ToolResults(w, calls, init)) + told
  {
    var init, b := content[..|content| - 1], content[|content| - 1];
    var es, rs := ToolEvents(w, calls, init), ToolResults(w, calls, init);
    if b.ToolUse? {
      var r := CallResult(w, calls + |Uses(init)|, b.name, b.input);
      var called, returned := Call(b.name, b.id, b.input), Returned(b.name, b.id, ResultText(r), r.Err?);
      assert ToolEvents(w, calls, content) == es + [called] + [returned];
      assert (es + [called] + [returned])[..|es| + 1] == es + [called] && (es + [called])[..|es|] == es;
      var result := ToolResult(b.id, ResultText(r), r.Err?);
      assert ToolResults(w, calls, content) == rs + [result] && (rs + [result])[..|rs|] == rs;
    } else {
      assert ToolEvents(w, calls, content) == es && ToolResults(w, calls, content) == rs;
    }
  }

  lemma ContinueParts(w: World, i: int, calls: nat, ms: seq<Msg>)
    requires OneRound(w, i, calls, ms).Continue?
    ensures var r, reply := OneRound(w, i, calls, ms), w.provider(i, ms);
            && reply.Replied? && r.events == Streamed(reply.stream) + ToolEvents(w, calls, reply.content)
            && r.msgs == ms + [Msg(Assistant, reply.content)] + [Msg(User, ToolResults(w, calls, reply.content))]
  {
    hide ToolResults, ToolEvents, Streamed;
  }

  lemma RoundToldUser(w: World, calls: nat, s: seq<StreamEvent>, content: seq<Block>)
    ensures ToldUser(Streamed(s) + ToolEvents(w, calls, content)) == ResultsIn(ToolResults(w, calls, content))
  {
    hide *;
    StreamTellsNothing(s);
    ToldAppend(Streamed(s), ToolEvents(w, calls, content));
    SameTold(w, calls, content);
    NothingBefore(ResultsIn(ToolResults(w, calls, content)));
  }

  lemma NothingBefore<T>(s: seq<T>)
    ensures [] + s == s
  {
  }

  lemma RoundToldModel(ms: seq<Msg>, content: seq<Block>, rs: seq<Block>)
    ensures ToldModel(ms + [Msg(Assistant, content)] + [Msg(User, rs)]) == ToldModel(ms) + ResultsIn(rs)
  {
    hide *;
    OneMoreToldModel(ms, Msg(Assistant, content));
    OneMoreToldModel(ms + [Msg(Assistant, content)], Msg(User, rs));
  }

  /** What a round that goes on adds to the history is what its events told. */
  lemma RoundTells(w: World, i: int, calls: nat, ms: seq<Msg>)
    requires OneRound(w, i, calls, ms).Continue?
    ensures var r := OneRound(w, i, calls, ms);
            ToldModel(r.msgs) == ToldModel(ms) + ToldUser(r.events)
  {
    hide *;
    var reply := w.provider(i, ms);
    ContinueParts(w, i, calls, ms);
    RoundToldUser(w, calls, reply.stream, reply.content);
    RoundToldModel(ms, reply.content, ToolResults(w, calls, reply.content));
  }

  lemma OneMoreToldModel(ms: seq<Msg>, m: Msg)
    ensures ToldModel(ms + [m]) == if m.role == User then ToldModel(ms) + ResultsIn(m.content) else ToldModel(ms)
  {
    hide ResultsIn;
    assert (ms + [m])[..|ms|] == ms;
  }

  predicate AllTold(requests: seq<seq<Msg>>, told: seq<Told>) {
    forall k | 0 <= k < |requests| :: ToldModel(requests[k]) <= told
  }

  lemma {:induction false} RoundsTell(w: World, i: int, calls: nat, ms: seq<Msg>)
    ensures var o := Rounds(w, i, calls, ms);
            AllTold(o.requests, ToldModel(ms) + ToldUser(o.events))
    decreases w.maxIters - i
  {
    hide ToldModel, ToldUser;
    if i < w.maxIters && OneRound(w, i, calls, ms).Continue? {
      var r := OneRound(w, i, calls, ms);
      var rest := Rounds(w, i + 1, r.calls, r.msgs);
      RoundTells(w, i, calls, ms);
      RoundsTell(w, i + 1, r.calls, r.msgs);
      ToldAppend(r.events, rest.events);
      Assoc(ToldModel(ms), ToldUser(r.events), ToldUser(rest.events));
    }
  }

  lemma {:induction false} TextTellsNothing(ms: seq<Msg>)
    requires TextOnly(ms)
    ensures ToldModel(ms) == []
  {
    if ms != [] {
      TextTellsNothing(ms[..|ms| - 1]);
      TextHoldsNoResults(ms[|ms| - 1].content);
    }
  }

  lemma {:induction false} TextHoldsNoResults(content: seq<Block>)
    requires forall b | b in content :: b.Text?
    ensures ResultsIn(content) == []
  {
    if content != [] {
      assert content[|content| - 1] in content;
      TextHoldsNoResults(content[..|content| - 1]);
    }
  }

  /** The results the model is sent are those the user is shown, in order: each request holds the first
      of the results among the turn's events, with the same id, text and error flag. */
  lemma ModelAndUserToldTheSame(w: World, history: seq<Msg>, userMessage: string, unresolved: Option<string>)
    requires TextOnly(history)
    ensures var o := Turn(w, history, userMessage, unresolved);
            AllTold(o.requests, ToldUser(o.events))
  {
    var ms := history + [Msg(User, [Text(userMessage)])];
    TextTellsNothing(ms);
    if unresolved.None? {
      RoundsTell(w, 0, 0, ms);
      var told := ToldUser(Rounds(w, 0, 0, ms).events);
      assert [] + told == told;
    }
  }

  // ---- the text, and the end --------------------------------------------------------

  /** The text of a stream's deltas. */
  function DeltaText(s: seq<StreamEvent>): string {
    if s == [] then "" else DeltaText(s[..|s| - 1]) + if s[|s| - 1].TextDelta? then s[|s| - 1].text else ""
  }

  lemma {:induction false} StreamedText(s: seq<StreamEvent>)
    ensures TextOf(Streamed(s)) == DeltaText(s)
  {
    if s != [] {
      StreamedText(s[..|s| - 1]);
      var init := Streamed(s[..|s| - 1]);
      match s[|s| - 1]
      case TextDelta(t) => assert (init + [TextEvent(t)])[..|init|] == init;
      case ToolCallStart(n, id) => assert (init + [CallStarted(n, id)])[..|init|] == init;
      case OtherDelta => assert Streamed(s) == init;
    }
  }

  lemma {:induction false} CallsAreTextless(w: World, calls: nat, content: seq<Block>)
    ensures TextOf(ToolEvents(w, calls, content)) == ""
  {
    if content != [] {
      var init, b := content[..|content| - 1], content[|content| - 1];
      var es := ToolEvents(w, calls, init);
      CallsAreTextless(w, calls, init);
      if b.ToolUse? {
        var r := CallResult(w, calls + |Uses(init)|, b.name, b.input);
        var called, returned := Call(b.name, b.id, b.input), Returned(b.name, b.id, ResultText(r), r.Err?);
        assert ToolEvents(w, calls, content) == es + [called] + [returned];
        assert (es + [called] + [returned])[..|es| + 1] == es + [called] && (es + [called])[..|es|] == es;
      } else {
        assert ToolEvents(w, calls, content) == es;
      }
    }
  }

  lemma RoundText(w: World, i: int, calls: nat, ms: seq<Msg>)
    ensures TextOf(OneRound(w, i, calls, ms).events) == DeltaText(w.provider(i, ms).stream)
  {
    var reply := w.provider(i, ms);
    var s := Streamed(reply.stream);
    StreamedText(reply.stream);
    match reply
    case Failed(_, e) =>
      assert (s + [Error(e)])[..|s|] == s;
    case Replied(_, _, content) =>
      var es := s + ToolEvents(w, calls, content);
      CallsAreTextless(w, calls, content);
      TextOfAppend(s, ToolEvents(w, calls, content));
      assert (es + [Done])[..|es|] == es && (es + [Error(NO_BLOCKS)])[..|es|] == es;
  }

  lemma ErrorIsTextless(e: string)
    ensures TextOf([Error(e)]) == ""
  {
    assert [Error(e)][..0] == [];
  }

  /** The text the provider streamed in answer to these requests, the first in round `i`. */
  function TextSaid(w: World, i: int, requests: seq<seq<Msg>>): string
    decreases |requests|
  {
    if requests == [] then "" else DeltaText(w.provider(i, requests[0]).stream) + TextSaid(w, i + 1, requests[1..])
  }

  lemma {:induction false} RoundsSay(w: World, i: int, calls: nat, ms: seq<Msg>)
    ensures var o := Rounds(w, i, calls, ms);
            TextOf(o.events) == TextSaid(w, i, o.requests)
    decreases w.maxIters - i
  {
    RoundText(w, i, calls, ms);
    ErrorIsTextless(TOO_MANY);
    hide DeltaText, OneRound, TextOf;
    if i < w.maxIters {
      var r := OneRound(w, i, calls, ms);
      assert [ms][1..] == [];
      if r.Continue? {
        var rest := Rounds(w, i + 1, r.calls, r.msgs);
        RoundsSay(w, i + 1, r.calls, r.msgs);
        TextOfAppend(r.events, rest.events);
        assert ([ms] + rest.requests)[1..] == rest.requests;
      }
    }
  }

  /** The text of a turn's events, which is what the server saves, is everything the provider streamed as
      text in answer to the turn's requests, in order, and nothing else. */
  lemma TurnSays(w: World, history: seq<Msg>, userMessage: string, unresolved: Option<string>)
    ensures var o := Turn(w, history, userMessage, unresolved);
            TextOf(o.events) == TextSaid(w, 0, o.requests)
  {
    if unresolved.Some? {
      ErrorIsTextless(unresolved.value);
    } else {
      RoundsSay(w, 0, 0, history + [Msg(User, [Text(userMessage)])]);
    }
  }

  /** A reply after which the turn goes on: it stopped to use tools and calls at least one. */
  predicate GoesOn(r: Reply) {
    r.Replied? && r.toolUse && UseCount(r.content) > 0
  }

  /** Request `k` leads to the next one: the reply is appended, and one message of as many results as it
      makes calls. */
  predicate LeadsTo(w: World, i: int, ms: seq<Msg>, next: seq<Msg>) {
    && GoesOn(w.provider(i, ms)) && |next| == |ms| + 2 && next[..|ms|] == ms
    && next[|ms|] == Msg(Assistant, w.provider(i, ms).content)
    && next[|ms| + 1].role == User && |next[|ms| + 1].content| == UseCount(w.provider(i, ms).content)
  }

  /** How a turn whose requests start in round `i` runs: each request leads to the next, and what the last
      reply was decides the end - the provider's own error; done, with the reply appended; an error for
      a reply that stopped for tools and called none; or an error for too many rounds. */
  predicate RunsAndEnds(w: World, i: int, o: Outcome) {
    var n := |o.requests|;
    && (forall k | 0 <= k < n - 1 :: LeadsTo(w, i + k, o.requests[k], o.requests[k + 1]))
    && o.events != [] && var end := o.events[|o.events| - 1];
       if n == 0 then
         i >= w.maxIters && end == Error("max iterations reached") && o.err.Some?
       else
         var last, reply := o.requests[n - 1], w.provider(i + n - 1, o.requests[n - 1]);
         && i + n <= w.maxIters
         && match reply
            case Failed(_, e) => end == Error(e) && o.err == Some(e) && o.msgs == last
            case Replied(_, toolUse, content) =>
              if !toolUse then end == Done && o.err == None && o.msgs == last + [Msg(Assistant, content)]
              else if UseCount(content) == 0 then
                && end == Error("model requested tool use but emitted no tool blocks")
                && o.err == Some("empty tool batch") && o.msgs == last + [Msg(Assistant, content)]
              else
                && i + n == w.maxIters && end == Error("max iterations reached") && o.err.Some?
                && LeadsTo(w, i + n - 1, last, o.msgs)
  }

  lemma ResultsCount(w: World, calls: nat, content: seq<Block>)
    ensures |ToolResults(w, calls, content)| == UseCount(content)
  {
    ResultsAnswer(w, calls, content);
    AnswersSize(w, calls, content, ToolResults(w, calls, content));
  }

  lemma RoundLeads(w: World, i: int, calls: nat, ms: seq<Msg>)
    ensures OneRound(w, i, calls, ms).Continue? <==> GoesOn(w.provider(i, ms))
    ensures GoesOn(w.provider(i, ms)) ==> LeadsTo(w, i, ms, OneRound(w, i, calls, ms).msgs)
  {
    if w.provider(i, ms).Replied? { ResultsCount(w, calls, w.provider(i, ms).content); }
    hide ToolResults, ToolEvents, Streamed, UseCount;
  }

  lemma RoundEndsTurn(w: World, i: int, calls: nat, ms: seq<Msg>)
    requires i < w.maxIters && !GoesOn(w.provider(i, ms))
    ensures RunsAndEnds(w, i, Rounds(w, i, calls, ms))
  {
    if w.provider(i, ms).Replied? { ResultsCount(w, calls, w.provider(i, ms).content); }
    hide ToolResults, ToolEvents, Streamed, UseCount;
    var o := Rounds(w, i, calls, ms);
    assert o.requests == [ms] && OneRound(w, i, calls, ms).Stop?;
  }

  lemma {:induction false} RoundsRunAndEnd(w: World, i: int, calls: nat, ms: seq<Msg>)
    ensures RunsAndEnds(w, i, Rounds(w, i, calls, ms))
    ensures i < w.maxIters <==> Rounds(w, i, calls, ms).requests != []
    ensures i < w.maxIters ==> Rounds(w, i, calls, ms).requests[0] == ms
    ensures i >= w.maxIters ==> Rounds(w, i, calls, ms).msgs == ms
    decreases w.maxIters - i
  {
    RoundLeads(w, i, calls, ms);
    if i < w.maxIters && !GoesOn(w.provider(i, ms)) { RoundEndsTurn(w, i, calls, ms); }
    hide OneRound, LeadsTo, GoesOn, RunsAndEnds;
    if i >= w.maxIters {
      NoMoreRounds(w, i, calls, ms);
    } else if GoesOn(w.provider(i, ms)) {
      var r := OneRound(w, i, calls, ms);
      RoundsRunAndEnd(w, i + 1, r.calls, r.msgs);
      OneMoreRound(w, i, ms, r.events, r.msgs, Rounds(w, i + 1, r.calls, r.msgs));
    }
  }

  lemma NoMoreRounds(w: World, i: int, calls: nat, ms: seq<Msg>)
    requires i >= w.maxIters
    ensures RunsAndEnds(w, i, Rounds(w, i, calls, ms))
  {
  }

  lemma OneMoreRound(w: World, i: int, ms: seq<Msg>, events: seq<Event>, next: seq<Msg>, rest: Outcome)
    requires i < w.maxIters && LeadsTo(w, i, ms, next) && RunsAndEnds(w, i + 1, rest)
    requires if i + 1 < w.maxIters then rest.requests != [] && rest.requests[0] == next
             else rest.requests == [] && rest.msgs == next
    ensures RunsAndEnds(w, i, Outcome(events + rest.events, [ms] + rest.requests, rest.msgs, rest.err))
  {
    var o := Outcome(events + rest.events, [ms] + rest.requests, rest.msgs, rest.err);
    assert o.events[|o.events| - 1] == rest.events[|rest.events| - 1];
    assert GoesOn(w.provider(i, ms));
    hide LeadsTo;
    forall k | 0 <= k < |o.requests| - 1 ensures LeadsTo(w, i + k, o.requests[k], o.requests[k + 1]) {
      if k > 0 { assert LeadsTo(w, i + 1 + (k - 1), rest.requests[k - 1], rest.requests[k]); }
    }
  }

  /** A turn asks first with the history and the user's message, goes on exactly while replies stop to use
      tools and call some, and ends as the last reply says. */
  lemma TurnRunsAndEnds(w: World, history: seq<Msg>, userMessage: string)
    ensures var o := Turn(w, history, userMessage, None);
            && RunsAndEnds(w, 0, o)
            && (w.maxIters > 0 <==> o.requests != [])
            && (w.maxIters > 0 ==> o.requests[0] == history + [Msg(User, [Text(userMessage)])])
  {
    RoundsRunAndEnd(w, 0, 0, history + [Msg(User, [Text(userMessage)])]);
  }
}
