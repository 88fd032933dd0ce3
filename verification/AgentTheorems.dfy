/** The turn loop's protocol: bounded, ended by exactly one event, and every tool call answered. */
module AgentTheorems {
  import opened Wrappers
  import opened AgentLoop

  /** The ids of the tool calls of a message, and of the results in one, in order. */
  function UseIds(content: seq<Block>): seq<string> {
    if content == [] then []
    else UseIds(content[..|content| - 1]) + if content[|content| - 1].ToolUse? then [content[|content| - 1].id] else []
  }

  function ResultIds(content: seq<Block>): seq<string> {
    if content == [] then []
    else ResultIds(content[..|content| - 1])
         + if content[|content| - 1].ToolResult? then [content[|content| - 1].id] else []
  }

  /** Message `i` is not an assistant message with tool calls, or the next message is a user
      message whose results answer exactly those calls, in order. */
  predicate AnsweredAt(ms: seq<Msg>, i: int)
    requires 0 <= i < |ms|
  {
    ms[i].role == Assistant && UseIds(ms[i].content) != [] ==>
      i + 1 < |ms| && ms[i + 1].role == User && ResultIds(ms[i + 1].content) == UseIds(ms[i].content)
  }

  /** Message `i` is not a user message with results, or it answers the message before it. */
  predicate AnswersAt(ms: seq<Msg>, i: int)
    requires 0 <= i < |ms|
  {
    ms[i].role == User && ResultIds(ms[i].content) != [] ==>
      i > 0 && ms[i - 1].role == Assistant && ResultIds(ms[i].content) == UseIds(ms[i - 1].content)
  }

  predicate Protocol(ms: seq<Msg>) {
    |ms| > 0 && ms[|ms| - 1].role == User
    && forall i | 0 <= i < |ms| :: AnsweredAt(ms, i) && AnswersAt(ms, i)
  }

  /** The history the server loads: only text. */
  predicate TextOnly(ms: seq<Msg>) {
    forall i | 0 <= i < |ms| :: forall b | b in ms[i].content :: b.Text?
  }

  lemma {:induction false} NoTools(content: seq<Block>)
    requires forall b | b in content :: b.Text?
    ensures UseIds(content) == [] && ResultIds(content) == []
  {
    if content != [] {
      assert content[|content| - 1] in content;
      NoTools(content[..|content| - 1]);
    }
  }

  lemma {:induction false} ResultsAnswerUses(w: World, calls: nat, content: seq<Block>)
    ensures var rs := ToolResults(w, calls, content);
            ResultIds(rs) == UseIds(content) && UseIds(rs) == [] && (rs == [] <==> UseIds(content) == [])
  {
    if content != [] {
      var init := content[..|content| - 1];
      ResultsAnswerUses(w, calls, init);
      var rs, prev := ToolResults(w, calls, content), ToolResults(w, calls, init);
      if content[|content| - 1].ToolUse? {
        assert |rs| == |prev| + 1 && rs[..|rs| - 1] == prev;
        assert UseIds(content) == UseIds(init) + [content[|content| - 1].id];
      } else {
        assert rs == prev && UseIds(content) == UseIds(init);
      }
    }
  }

  /** A round that goes on extends a well-formed history to a well-formed one. */
  lemma RoundKeepsProtocol(w: World, i: int, calls: nat, ms: seq<Msg>)
    requires Protocol(ms) && OneRound(w, i, calls, ms).Continue?
    ensures Protocol(OneRound(w, i, calls, ms).msgs)
    ensures ms <= OneRound(w, i, calls, ms).msgs
  {
    var content := w.provider(i, ms).content;
    var rs := ToolResults(w, calls, content);
    ResultsAnswerUses(w, calls, content);
    var next := ms + [Msg(Assistant, content)] + [Msg(User, rs)];
    assert OneRound(w, i, calls, ms).msgs == next;
    forall k | 0 <= k < |next| ensures AnsweredAt(next, k) && AnswersAt(next, k) {
      if k < |ms| {
        assert AnsweredAt(ms, k) && AnswersAt(ms, k);
        assert next[k] == ms[k];
        if k > 0 { assert next[k - 1] == ms[k - 1]; }
        if k + 1 < |ms| { assert next[k + 1] == ms[k + 1]; }
      }
    }
  }

  predicate AllProtocol(requests: seq<seq<Msg>>) {
    forall k | 0 <= k < |requests| :: Protocol(requests[k])
  }

  lemma {:induction false} RoundsKeepProtocol(w: World, i: int, calls: nat, ms: seq<Msg>)
    requires Protocol(ms)
    ensures AllProtocol(Rounds(w, i, calls, ms).requests)
    decreases w.maxIters - i
  {
    if i < w.maxIters && OneRound(w, i, calls, ms).Continue? {
      var r := OneRound(w, i, calls, ms);
      RoundKeepsProtocol(w, i, calls, ms);
      RoundsKeepProtocol(w, i + 1, r.calls, r.msgs);
    }
  }

  /** Every request a turn sends, whatever the provider and the tools do: each tool call is
      answered exactly once, in order and by id, in the next user message, and nothing else is. */
  lemma EveryRequestAnswersItsCalls(w: World, history: seq<Msg>, userMessage: string, unresolved: Option<string>)
    requires TextOnly(history)
    ensures AllProtocol(Turn(w, history, userMessage, unresolved).requests)
  {
    var ms := history + [Msg(User, [Text(userMessage)])];
    forall k | 0 <= k < |ms| ensures AnsweredAt(ms, k) && AnswersAt(ms, k) {
      NoTools(ms[k].content);
    }
    if unresolved.None? { RoundsKeepProtocol(w, 0, 0, ms); }
  }

  ghost predicate Growing(ms: seq<Msg>, rs: seq<seq<Msg>>) {
    (forall k | 0 <= k < |rs| :: ms <= rs[k]) && forall j, k | 0 <= j < k < |rs| :: rs[j] < rs[k]
  }

  lemma GrowingFrom(ms: seq<Msg>, next: seq<Msg>, rest: seq<seq<Msg>>)
    requires ms < next && Growing(next, rest)
    ensures Growing(ms, [ms] + rest)
  {
    var rs := [ms] + rest;
    forall k | 0 <= k < |rs| ensures ms <= rs[k] && (k > 0 ==> ms < rs[k]) {
      if k > 0 { assert rs[k] == rest[k - 1] && next <= rest[k - 1]; }
    }
  }

  /** At most one provider call per remaining round; each request strictly extends the one before. */
  lemma {:induction false} RequestsBounded(w: World, i: int, calls: nat, ms: seq<Msg>)
    ensures var rs := Rounds(w, i, calls, ms).requests;
            |rs| <= (if i < w.maxIters then w.maxIters - i else 0) && Growing(ms, rs)
    decreases w.maxIters - i
  {
    if i < w.maxIters && OneRound(w, i, calls, ms).Continue? {
      var r := OneRound(w, i, calls, ms);
      RequestsBounded(w, i + 1, r.calls, r.msgs);
      assert ms < r.msgs;
      GrowingFrom(ms, r.msgs, Rounds(w, i + 1, r.calls, r.msgs).requests);
    }
  }

  predicate EndsOnce(events: seq<Event>) {
    |events| > 0 && Terminal(events[|events| - 1])
    && forall k | 0 <= k < |events| - 1 :: !Terminal(events[k])
  }

  lemma {:induction false} StreamedNotTerminal(s: seq<StreamEvent>)
    ensures forall k | 0 <= k < |Streamed(s)| :: !Terminal(Streamed(s)[k])
  {
    if s != [] { StreamedNotTerminal(s[..|s| - 1]); }
  }

  lemma {:induction false} ToolEventsNotTerminal(w: World, calls: nat, content: seq<Block>)
    ensures forall k | 0 <= k < |ToolEvents(w, calls, content)| :: !Terminal(ToolEvents(w, calls, content)[k])
  {
    if content != [] { ToolEventsNotTerminal(w, calls, content[..|content| - 1]); }
  }

  lemma RoundEnds(w: World, i: int, calls: nat, ms: seq<Msg>)
    ensures match OneRound(w, i, calls, ms)
            case Stop(es, _, err) => EndsOnce(es) && (err.None? <==> es[|es| - 1] == Done)
            case Continue(es, _, _) => forall k | 0 <= k < |es| :: !Terminal(es[k])
  {
    match w.provider(i, ms) {
      case Failed(s, e) => StreamedNotTerminal(s);
      case Replied(s, _, content) =>
        StreamedNotTerminal(s);
        ToolEventsNotTerminal(w, calls, content);
        var es := Streamed(s) + ToolEvents(w, calls, content);
        forall k | 0 <= k < |es| ensures !Terminal(es[k]) { }
    }
  }

  lemma EndsOnceAfter(a: seq<Event>, b: seq<Event>)
    requires (forall k | 0 <= k < |a| :: !Terminal(a[k])) && EndsOnce(b)
    ensures EndsOnce(a + b) && (a + b)[|a + b| - 1] == b[|b| - 1]
  {
    var c := a + b;
    forall k | 0 <= k < |c| - 1 ensures !Terminal(c[k]) {
      if k >= |a| { assert c[k] == b[k - |a|]; }
    }
  }

  lemma {:induction false} RoundsEndOnce(w: World, i: int, calls: nat, ms: seq<Msg>)
    ensures var o := Rounds(w, i, calls, ms);
            EndsOnce(o.events) && (o.err.None? <==> o.events[|o.events| - 1] == Done)
    decreases w.maxIters - i
  {
    if i < w.maxIters {
      RoundEnds(w, i, calls, ms);
      var r := OneRound(w, i, calls, ms);
      if r.Continue? {
        RoundsEndOnce(w, i + 1, r.calls, r.msgs);
        EndsOnceAfter(r.events, Rounds(w, i + 1, r.calls, r.msgs).events);
      }
    }
  }

  /** A turn makes at most `maxIters` provider calls and emits exactly one terminal event, its last:
      done when it succeeded, error when it did not. */
  lemma TurnEndsOnce(w: World, history: seq<Msg>, userMessage: string, unresolved: Option<string>)
    ensures var o := Turn(w, history, userMessage, unresolved);
            && EndsOnce(o.events) && (o.err.None? <==> o.events[|o.events| - 1] == Done)
            && |o.requests| <= (if w.maxIters > 0 then w.maxIters else 0)
  {
    var ms := history + [Msg(User, [Text(userMessage)])];
    if unresolved.None? {
      RoundsEndOnce(w, 0, 0, ms);
      RequestsBounded(w, 0, 0, ms);
    }
  }

  // ---- the history of the next turn -----------------------------------------

  datatype StoredMessage = StoredMessage(role: string, text: Option<string>)

  predicate GoSpace(c: char) {
    c in {'\t', '\n', '\U{0B}', '\U{0C}', '\r', ' ', '\U{85}', '\U{A0}', '\U{1680}', '\U{2028}', '\U{2029}',
          '\U{202F}', '\U{205F}', '\U{3000}'}
    || '\U{2000}' <= c <= '\U{200A}'
  }

  predicate Blank(s: string) {
    forall c | c in s :: GoSpace(c)
  }

  predicate Loaded(r: StoredMessage) {
    r.text.Some? && !Blank(r.text.value) && (r.role == "user" || r.role == "assistant")
  }

  function History(rows: seq<StoredMessage>): seq<Msg> {
    if rows == [] then []
    else
      var r := rows[|rows| - 1];
      History(rows[..|rows| - 1])
      + if Loaded(r) then [Msg(if r.role == "user" then User else Assistant, [Text(r.text.value)])] else []
  }

  /** Row `j` is replayed after those before it, as one message of its own role with its text, exactly when
      it is a user's or an assistant's and holds a character that is no white space. */
  lemma {:induction false} ReplayedIff(rows: seq<StoredMessage>, j: int)
    requires 0 <= j < |rows|
    ensures var k, r := |History(rows[..j])|, rows[j];
            var replayed := r.text.Some? && (exists c | c in r.text.value :: !GoSpace(c))
                            && r.role in ["user", "assistant"];
            && |History(rows[..j + 1])| == k + (if replayed then 1 else 0)
            && k <= |History(rows)| && History(rows)[..k] == History(rows[..j])
            && (replayed ==>
                  && k < |History(rows)| && History(rows)[k].content == [Text(r.text.value)]
                  && (History(rows)[k].role == User <==> r.role == "user"))
    decreases |rows|
  {
    var init := rows[..|rows| - 1];
    if j < |init| {
      ReplayedIff(init, j);
      assert init[j] == rows[j] && init[..j] == rows[..j] && init[..j + 1] == rows[..j + 1];
      assert History(rows)[..|History(init)|] == History(init);
    } else {
      assert rows[..j + 1] == rows && rows[..j + 1][..j] == rows[..j];
    }
  }

  /** Rows that are not a JSON string, are blank or have another role are dropped. */
  method LoadHistory(rows: seq<StoredMessage>) returns (history: seq<Msg>)
    ensures history == History(rows) && TextOnly(history) && |history| <= |rows|
  {
    history := [];
    for k := 0 to |rows|
      invariant history == History(rows[..k]) && TextOnly(history) && |history| <= k
    {
      assert rows[..k + 1][..k] == rows[..k];
      var r := rows[k];
      if r.text.None? || Blank(r.text.value) {
        continue;
      }
      if r.role == "user" {
        history := history + [Msg(User, [Text(r.text.value)])];
      } else if r.role == "assistant" {
        history := history + [Msg(Assistant, [Text(r.text.value)])];
      }
    }
    assert rows[..|rows|] == rows;
  }
}
