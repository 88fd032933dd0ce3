/** The chat stream: `sendSSE` prints server-sent events, and the client's `streamChat`
    parses them out of arbitrarily cut chunks (section 9.2 of the WHATWG HTML Living Standard). */
module Sse {
  import opened Seqs
  import opened Wrappers
  import opened Utf8

  // ---- the printer ----------------------------------------------------------

  /** What `fmt.Fprintf(w, "event: %s\ndata: %s\n\n", event, b)` writes. */
  function Print(event: string, json: string): string {
    "event: " + event + "\n" + ("data: " + json) + "\n\n"
  }

  /** The response body; every send appends one printed event and flushes. */
  class ResponseWriter {
    var written: seq<byte>

    constructor ()
      ensures written == []
    {
      written := [];
    }

    method SendSSE(event: string, json: string)
      modifies this
      ensures written == old(written) + Encode(Print(event, json))
      ensures written == old(written) + Encode("event: " + event + "\n" + ("data: " + json) + "\n\n")
    {
      written := written + Encode(Print(event, json));
    }

    /** The events of one chat request, in order. */
    method SendAll<J>(encode: J -> string, ms: seq<Message<J>>)
      modifies this
      ensures written == old(written) + Encode(PrintAll(encode, ms))
    {
      assert old(written) + [] == old(written);
      for k := 0 to |ms|
        invariant written == old(written) + Encode(PrintAll(encode, ms[..k]))
      {
        var json := encode(ms[k].data);
        SendSSE(Name(ms[k].kind), json);
        PrintOneMore(encode, ms, k);
        EncodeAppend(PrintAll(encode, ms[..k]), Print(Name(ms[k].kind), json));
        Assoc(old(written), Encode(PrintAll(encode, ms[..k])), Encode(Print(Name(ms[k].kind), json)));
      }
      assert ms[..|ms|] == ms;
    }
  }

  lemma {:induction false} PrintOneMore<J>(encode: J -> string, ms: seq<Message<J>>, k: int)
    requires 0 <= k < |ms|
    ensures PrintAll(encode, ms[..k + 1]) == PrintAll(encode, ms[..k]) + Print(Name(ms[k].kind), encode(ms[k].data))
    decreases k
  {
    var p := Print(Name(ms[0].kind), encode(ms[0].data));
    if k == 0 {
      assert ms[..1][1..] == [] && ms[..0] == [];
      assert p + "" == p && "" + p == p;
    } else {
      assert ms[..k + 1][1..] == ms[1..][..k] && ms[..k][1..] == ms[1..][..k - 1];
      PrintOneMore(encode, ms[1..], k - 1);
      Assoc(p, PrintAll(encode, ms[1..][..k - 1]), Print(Name(ms[k].kind), encode(ms[k].data)));
    }
  }

  // ---- JavaScript string operations -----------------------------------------

  /** `indexOf("\n\n")`. */
  function BlankLine(s: string): int {
    if |s| < 2 then -1
    else if s[0] == '\n' && s[1] == '\n' then 0
    else
      var k := BlankLine(s[1..]);
      if k < 0 then -1 else k + 1
  }

  lemma {:induction false} BlankLineFound(s: string)
    ensures -1 <= BlankLine(s) <= |s| - 2 || BlankLine(s) == -1
    ensures BlankLine(s) >= 0 ==> s[BlankLine(s)] == '\n' && s[BlankLine(s) + 1] == '\n'
    decreases |s|
  {
    if |s| >= 2 { BlankLineFound(s[1..]); }
  }

  function StartsWith(s: string, prefix: string): bool {
    prefix <= s
  }

  /** `split("\n")`: the lines, of which there is always at least one. */
  function Split(s: string): seq<string> {
    if s == "" then [""]
    else
      var rest := Split(s[1..]);
      if s[0] == '\n' then [""] + rest
      else if rest == [] then [[s[0]]]
      else [[s[0]] + rest[0]] + rest[1..]
  }

  function Join(lines: seq<string>): string {
    if lines == [] then ""
    else if |lines| == 1 then lines[0]
    else lines[0] + "\n" + Join(lines[1..])
  }

  predicate IsSpace(c: char) {
    c in {' ', '\t', '\n', '\r', '\U{0B}', '\U{0C}', '\U{A0}', '\U{FEFF}', '\U{1680}', '\U{2028}', '\U{2029}',
          '\U{202F}', '\U{205F}', '\U{3000}'}
    || '\U{2000}' <= c <= '\U{200A}'
  }

  function TrimStart(s: string): string {
    if s != "" && IsSpace(s[0]) then TrimStart(s[1..]) else s
  }

  function TrimEnd(s: string): string {
    if s != "" && IsSpace(s[|s| - 1]) then TrimEnd(s[..|s| - 1]) else s
  }

  function Trim(s: string): string {
    TrimEnd(TrimStart(s))
  }

  // ---- frames ---------------------------------------------------------------

  /** The frames a buffer holds, each ended by a blank line. */
  function Frames(s: string): seq<string>
    decreases |s|
  {
    BlankLineFound(s);
    var k := BlankLine(s);
    if k < 0 then [] else [s[..k]] + Frames(s[k + 2..])
  }

  /** What is left in the buffer after them. */
  function Leftover(s: string): string
    decreases |s|
  {
    BlankLineFound(s);
    var k := BlankLine(s);
    if k < 0 then s else Leftover(s[k + 2..])
  }

  /** The last event line wins. */
  function EventName(lines: seq<string>): string {
    if lines == [] then "message"
    else
      var l := lines[|lines| - 1];
      if StartsWith(l, "event: ") then Trim(l[7..]) else EventName(lines[..|lines| - 1])
  }

  function DataLines(lines: seq<string>): seq<string> {
    if lines == [] then []
    else
      var l := lines[|lines| - 1];
      DataLines(lines[..|lines| - 1])
      + if !StartsWith(l, "event: ") && StartsWith(l, "data: ") then [l[6..]] else []
  }

  /** A frame's event name and data, or nothing when it has no data line or no valid JSON. */
  function Parsed<J>(parse: string -> Option<J>, frame: string): Option<(string, J)> {
    var lines := Split(frame);
    var data := DataLines(lines);
    if data == [] then None
    else match parse(Join(data)) case None => None case Some(j) => Some((EventName(lines), j))
  }

  datatype Delivery<J> = OnMeta(data: J) | OnEvent(data: J) | OnEnd(data: J)

  /** The handler call a frame leads to, if any. */
  function Dispatch<J>(parse: string -> Option<J>, frame: string): seq<Delivery<J>> {
    match Parsed(parse, frame)
    case None => []
    case Some((event, j)) =>
      if event == "meta" then [OnMeta(j)]
      else if event == "event" then [OnEvent(j)]
      else if event == "end" then [OnEnd(j)]
      else []
  }

  function DispatchAll<J>(parse: string -> Option<J>, frames: seq<string>): seq<Delivery<J>> {
    if frames == [] then [] else Dispatch(parse, frames[0]) + DispatchAll(parse, frames[1..])
  }

  // ---- the parser -----------------------------------------------------------

  /** The deliveries whose handler throws: each is caught and reported, and the stream goes on. */
  function Thrown<J>(throws: Delivery<J> -> bool, ds: seq<Delivery<J>>): seq<Delivery<J>> {
    if ds == [] then []
    else Thrown(throws, ds[..|ds| - 1]) + if throws(ds[|ds| - 1]) then [ds[|ds| - 1]] else []
  }

  lemma FirstFrame<J>(parse: string -> Option<J>, before: seq<Delivery<J>>, s: string, frame: string, rest: string)
    requires 0 <= BlankLine(s) <= |s| - 2 && frame == s[..BlankLine(s)] && rest == s[BlankLine(s) + 2..]
    ensures Leftover(s) == Leftover(rest)
    ensures before + DispatchAll(parse, Frames(s)) == before + Dispatch(parse, frame) + DispatchAll(parse, Frames(rest))
  {
    assert ([frame] + Frames(rest))[1..] == Frames(rest);
  }

  class ChatStream<J(==)> {
    const parse: string -> Option<J>
    const throws: Delivery<J> -> bool
    var pending: seq<byte>
    var buffer: string
    var delivered: seq<Delivery<J>>
    var reported: seq<Delivery<J>>

    constructor (parse: string -> Option<J>, throws: Delivery<J> -> bool)
      ensures this.parse == parse && this.throws == throws && State() == Stream([], "", []) && Reported()
    {
      this.parse, this.throws := parse, throws;
      pending, buffer, delivered, reported := [], "", [], [];
    }

    /** onError was called for exactly the deliveries whose handler threw. */
    predicate Reported()
      reads this
    {
      reported == Thrown(throws, delivered)
    }

    function State(): Stream<J>
      reads this
    {
      Stream(pending, buffer, delivered)
    }

    /** The read loop of `streamChat`, over the chunks the connection gives. */
    method ReadChunks(chunks: seq<seq<byte>>)
      requires Reported()
      modifies this
      ensures State() == ReadAll(parse, old(State()), chunks) && Reported()
    {
      for k := 0 to |chunks|
        invariant Reported() && ReadAll(parse, State(), chunks[k..]) == ReadAll(parse, old(State()), chunks)
      {
        assert chunks[k..][0] == chunks[k] && chunks[k..][1..] == chunks[k + 1..];
        Read(chunks[k]);
      }
    }

    /** One `reader.read()`: decode the chunk, then hand over every complete frame. */
    method Read(chunk: seq<byte>)
      requires Reported()
      modifies this
      ensures Reported()
      ensures pending == Pending(old(pending) + chunk)
      ensures buffer == Leftover(old(buffer) + Decoded(old(pending) + chunk))
      ensures delivered == old(delivered) + DispatchAll(parse, Frames(old(buffer) + Decoded(old(pending) + chunk)))
    {
      buffer := buffer + Decoded(pending + chunk);
      pending := Pending(pending + chunk);
      Drain();
    }

    method Drain()
      requires Reported()
      modifies this`buffer, this`delivered, this`reported
      ensures Reported()
      ensures buffer == Leftover(old(buffer))
      ensures delivered == old(delivered) + DispatchAll(parse, Frames(old(buffer)))
    {
      BlankLineFound(buffer);
      var frameEnd := BlankLine(buffer);
      ghost var left := Leftover(buffer);
      ghost var goal := delivered + DispatchAll(parse, Frames(buffer));
      while frameEnd >= 0
        invariant frameEnd == BlankLine(buffer) && (frameEnd == -1 || 0 <= frameEnd <= |buffer| - 2)
        invariant Leftover(buffer) == left && Reported()
        invariant delivered + DispatchAll(parse, Frames(buffer)) == goal
        decreases |buffer|
      {
        var frame := buffer[..frameEnd];
        FirstFrame(parse, delivered, buffer, frame, buffer[frameEnd + 2..]);
        buffer := buffer[frameEnd + 2..];
        HandOver(frame);
        BlankLineFound(buffer);
        frameEnd := BlankLine(buffer);
      }
      assert delivered + [] == delivered;
    }

    method HandOver(frame: string)
      requires Reported()
      modifies this`delivered, this`reported
      ensures delivered == old(delivered) + Dispatch(parse, frame) && Reported()
    {
      var parsed := ParseFrame(frame);
      if parsed.None? {
        return;
      }
      var (event, data) := parsed.value;
      if event == "meta" {
        Handle(OnMeta(data));
      } else if event == "event" {
        Handle(OnEvent(data));
      } else if event == "end" {
        Handle(OnEnd(data));
      }
    }

    /** Calls a handler and catches what it throws. */
    method Handle(d: Delivery<J>)
      requires Reported()
      modifies this`delivered, this`reported
      ensures delivered == old(delivered) + [d] && Reported()
    {
      ghost var before := delivered;
      delivered := delivered + [d];
      if throws(d) {
        reported := reported + [d];
      }
      assert delivered[..|delivered| - 1] == before;
    }

    method ParseFrame(frame: string) returns (r: Option<(string, J)>)
      ensures r == Parsed(parse, frame)
    {
      var event := "message";
      var dataLines: seq<string> := [];
      var lines := Split(frame);
      for i := 0 to |lines|
        invariant event == EventName(lines[..i]) && dataLines == DataLines(lines[..i])
      {
        assert lines[..i + 1][..i] == lines[..i];
        if StartsWith(lines[i], "event: ") {
          event := Trim(lines[i][7..]);
        } else if StartsWith(lines[i], "data: ") {
          dataLines := dataLines + [lines[i][6..]];
        }
      }
      assert lines[..|lines|] == lines;
      if |dataLines| == 0 {
        return None;
      }
      var data := parse(Join(dataLines));
      if data.None? {
        return None;
      }
      r := Some((event, data.value));
    }
  }

  // ---- the lines of a frame ---------------------------------------------------

  /** No line holds a line break, and the lines, joined by line breaks again, are the text. */
  lemma {:induction false} JoinSplit(s: string)
    ensures Split(s) != [] && Join(Split(s)) == s && forall i | 0 <= i < |Split(s)| :: '\n' !in Split(s)[i]
    decreases |s|
  {
    if s != "" {
      var rest := Split(s[1..]);
      JoinSplit(s[1..]);
      assert s == [s[0]] + s[1..];
      if s[0] == '\n' {
        assert ([""] + rest)[1..] == rest;
      } else {
        var lines := [[s[0]] + rest[0]] + rest[1..];
        assert lines[1..] == rest[1..];
        Assoc([s[0]], rest[0], "\n" + Join(rest[1..]));
        assert Join(lines) == [s[0]] + Join(rest);
      }
    }
  }

  /** The event of a frame is what the last line that names one names, its white space stripped; a frame
      that names none is a message. */
  lemma {:induction false} LastEventWins(lines: seq<string>, k: int)
    requires -1 <= k < |lines| && forall j | k < j < |lines| :: !("event: " <= lines[j])
    requires k >= 0 ==> "event: " <= lines[k]
    ensures k == -1 ==> EventName(lines) == "message"
    ensures k >= 0 ==> EventName(lines) == Trim(lines[k][7..])
    decreases |lines|
  {
    if k < |lines| - 1 { LastEventWins(lines[..|lines| - 1], k); }
  }

  lemma {:induction false} SpacesGo(a: string, s: string)
    requires forall ch | ch in a :: IsSpace(ch)
    requires s == "" || !IsSpace(s[0])
    ensures TrimStart(a + s) == s
    decreases |a|
  {
    if a == "" {
      assert a + s == s;
    } else {
      assert (a + s)[1..] == a[1..] + s;
      SpacesGo(a[1..], s);
    }
  }

  lemma {:induction false} SpacesGoAtEnd(s: string, b: string)
    requires forall ch | ch in b :: IsSpace(ch)
    requires s == "" || !IsSpace(s[|s| - 1])
    ensures TrimEnd(s + b) == s
    decreases |b|
  {
    if b == "" {
      assert s + b == s;
    } else {
      LastOf(s, b);
      assert b[|b| - 1] in b;
      SpacesGoAtEnd(s, b[..|b| - 1]);
    }
  }

  /** White space goes at both ends, and only there. */
  lemma TrimStrips(a: string, s: string, b: string)
    requires (forall ch | ch in a + b :: IsSpace(ch)) && s != "" && !IsSpace(s[0]) && !IsSpace(s[|s| - 1])
    ensures Trim(a + s + b) == s
  {
    forall ch | ch in a || ch in b ensures IsSpace(ch) { assert ch in a + b; }
    Assoc(a, s, b);
    SpacesGo(a, s + b);
    SpacesGoAtEnd(s, b);
  }

  /** The data of a frame are what follows the prefix in each data line, in order; other lines give none. */
  lemma {:induction false} DataOfLine(lines: seq<string>, j: int)
    requires 0 <= j < |lines|
    ensures var k, isData := |DataLines(lines[..j])|, "data: " <= lines[j];
            && k <= |DataLines(lines)| && DataLines(lines)[..k] == DataLines(lines[..j])
            && |DataLines(lines[..j + 1])| == k + (if isData then 1 else 0)
            && (isData ==> k < |DataLines(lines)| && DataLines(lines)[k] == lines[j][6..])
    decreases |lines|
  {
    var init := lines[..|lines| - 1];
    assert "event: "[0] == 'e' && "data: "[0] == 'd';
    if j < |init| {
      DataOfLine(init, j);
      assert init[j] == lines[j] && init[..j] == lines[..j] && init[..j + 1] == lines[..j + 1];
      assert DataLines(lines)[..|DataLines(init)|] == DataLines(init);
    } else {
      assert lines[..j + 1] == lines && lines[..j + 1][..j] == lines[..j];
    }
  }

  // ---- chunking does not matter ---------------------------------------------

  lemma {:induction false} BlankLineAppend(a: string, b: string)
    requires BlankLine(a) >= 0
    ensures BlankLine(a + b) == BlankLine(a)
    decreases |a|
  {
    if !(a[0] == '\n' && a[1] == '\n') {
      assert (a + b)[1..] == a[1..] + b;
      BlankLineAppend(a[1..], b);
    }
  }

  /** The frames of a stream are those of its first part, then those of the rest with the leftover. */
  lemma {:induction false} FramesInParts(a: string, b: string)
    ensures Frames(a + b) == Frames(a) + Frames(Leftover(a) + b)
    ensures Leftover(a + b) == Leftover(Leftover(a) + b)
    decreases |a|
  {
    BlankLineFound(a);
    var k := BlankLine(a);
    if k >= 0 {
      BlankLineAppend(a, b);
      assert (a + b)[..k] == a[..k] && (a + b)[k + 2..] == a[k + 2..] + b;
      FramesInParts(a[k + 2..], b);
      Assoc([a[..k]], Frames(a[k + 2..]), Frames(Leftover(a[k + 2..]) + b));
    }
  }

  lemma {:induction false} DispatchInParts<J>(parse: string -> Option<J>, a: seq<string>, b: seq<string>)
    ensures DispatchAll(parse, a + b) == DispatchAll(parse, a) + DispatchAll(parse, b)
    decreases |a|
  {
    if a == [] {
      assert a + b == b;
    } else {
      assert (a + b)[1..] == a[1..] + b;
      DispatchInParts(parse, a[1..], b);
    }
  }

  /** The parser's state, and what one read makes of it (the contract of ChatStream.Read). */
  datatype Stream<J> = Stream(pending: seq<byte>, buffer: string, delivered: seq<Delivery<J>>)

  function ReadChunk<J>(parse: string -> Option<J>, s: Stream<J>, chunk: seq<byte>): Stream<J> {
    var text := s.buffer + Decoded(s.pending + chunk);
    Stream(Pending(s.pending + chunk), Leftover(text), s.delivered + DispatchAll(parse, Frames(text)))
  }

  function ReadAll<J>(parse: string -> Option<J>, s: Stream<J>, chunks: seq<seq<byte>>): Stream<J>
    decreases |chunks|
  {
    if chunks == [] then s else ReadAll(parse, ReadChunk(parse, s, chunks[0]), chunks[1..])
  }

  function Flat<T>(parts: seq<seq<T>>): seq<T> {
    if parts == [] then [] else parts[0] + Flat(parts[1..])
  }

  /** Nothing left that could have been handed over: no complete character, no complete frame. */
  predicate Settled<J>(s: Stream<J>) {
    Decoded(s.pending) == "" && Pending(s.pending) == s.pending && BlankLine(s.buffer) < 0
  }

  lemma {:induction false} PendingSettled(bs: seq<byte>)
    ensures Decoded(Pending(bs)) == "" && Pending(Pending(bs)) == Pending(bs)
    decreases |bs|
  {
    if bs != [] && Need(bs[0]) <= |bs| { PendingSettled(bs[Need(bs[0])..]); }
  }

  lemma {:induction false} LeftoverSettled(s: string)
    ensures BlankLine(Leftover(s)) < 0
    decreases |s|
  {
    BlankLineFound(s);
    if BlankLine(s) >= 0 { LeftoverSettled(s[BlankLine(s) + 2..]); }
  }

  /** Reading two chunks is reading them joined. */
  lemma ReadJoined<J>(parse: string -> Option<J>, s: Stream<J>, a: seq<byte>, b: seq<byte>)
    ensures ReadChunk(parse, ReadChunk(parse, s, a), b) == ReadChunk(parse, s, a + b)
  {
    var p := s.pending + a;
    assert s.pending + (a + b) == p + b;
    DecodeInParts(p, b);
    TextInParts(parse, s.delivered, s.buffer + Decoded(p), Decoded(Pending(p) + b));
    Assoc(s.buffer, Decoded(p), Decoded(Pending(p) + b));
  }

  lemma TextInParts<J>(parse: string -> Option<J>, before: seq<Delivery<J>>, x: string, y: string)
    ensures before + DispatchAll(parse, Frames(x)) + DispatchAll(parse, Frames(Leftover(x) + y))
            == before + DispatchAll(parse, Frames(x + y))
    ensures Leftover(Leftover(x) + y) == Leftover(x + y)
  {
    FramesInParts(x, y);
    DispatchInParts(parse, Frames(x), Frames(Leftover(x) + y));
    Assoc(before, DispatchAll(parse, Frames(x)), DispatchAll(parse, Frames(Leftover(x) + y)));
  }

  /** What the client has been handed depends only on the bytes, not on how they were cut. */
  lemma {:induction false} ChunkingIrrelevant<J>(parse: string -> Option<J>, s: Stream<J>, chunks: seq<seq<byte>>)
    requires Settled(s)
    ensures ReadAll(parse, s, chunks) == ReadChunk(parse, s, Flat(chunks))
    decreases |chunks|
  {
    if chunks == [] {
      assert s.pending + [] == s.pending && s.buffer + "" == s.buffer && s.delivered + [] == s.delivered;
    } else {
      var t := ReadChunk(parse, s, chunks[0]);
      PendingSettled(s.pending + chunks[0]);
      LeftoverSettled(s.buffer + Decoded(s.pending + chunks[0]));
      ChunkingIrrelevant(parse, t, chunks[1..]);
      ReadJoined(parse, s, chunks[0], Flat(chunks[1..]));
    }
  }

  // ---- the parser undoes the printer ----------------------------------------

  /** The three events the server sends. */
  datatype Kind = Meta | Event | End

  datatype Message<J> = Message(kind: Kind, data: J)

  function Name(k: Kind): string {
    match k case Meta => "meta" case Event => "event" case End => "end"
  }

  function Handed<J>(m: Message<J>): Delivery<J> {
    match m.kind case Meta => OnMeta(m.data) case Event => OnEvent(m.data) case End => OnEnd(m.data)
  }

  function PrintAll<J>(encode: J -> string, ms: seq<Message<J>>): string {
    if ms == [] then "" else Print(Name(ms[0].kind), encode(ms[0].data)) + PrintAll(encode, ms[1..])
  }

  function HandedAll<J>(ms: seq<Message<J>>): seq<Delivery<J>> {
    if ms == [] then [] else [Handed(ms[0])] + HandedAll(ms[1..])
  }

  /** JSON as both sides use it: one line of text that decodes back. */
  ghost predicate JsonCodec<J(!new)>(encode: J -> string, parse: string -> Option<J>) {
    forall j: J :: parse(encode(j)) == Some(j) && '\n' !in encode(j)
  }

  lemma {:induction false} SplitLine(a: string)
    requires '\n' !in a
    ensures Split(a) == [a]
    decreases |a|
  {
    if a != "" {
      assert forall i | 0 <= i < |a[1..]| :: a[1..][i] == a[i + 1];
      SplitLine(a[1..]);
      assert a == [a[0]] + a[1..];
    }
  }

  lemma {:induction false} SplitTwoLines(a: string, b: string)
    requires '\n' !in a && '\n' !in b
    ensures Split(a + "\n" + b) == [a, b]
    decreases |a|
  {
    var s := a + "\n" + b;
    if a == "" {
      assert s[1..] == b;
      SplitLine(b);
    } else {
      assert forall i | 0 <= i < |a[1..]| :: a[1..][i] == a[i + 1];
      SplitTwoLines(a[1..], b);
      assert s[1..] == a[1..] + "\n" + b;
      assert a == [a[0]] + a[1..];
    }
  }

  /** The first blank line after two non-empty lines is the one that ends them. */
  lemma {:induction false} BlankLineEnds(p: string, rest: string)
    requires p != "" && p[|p| - 1] != '\n'
    requires forall i | 0 <= i < |p| - 1 :: !(p[i] == '\n' && p[i + 1] == '\n')
    ensures BlankLine(p + "\n\n" + rest) == |p|
    decreases |p|
  {
    var s := p + "\n\n" + rest;
    if |p| == 1 {
      assert s[1..][0] == '\n' && s[1..][1] == '\n';
      assert BlankLine(s[1..]) == 0;
    } else {
      assert s[1..] == p[1..] + "\n\n" + rest;
      forall i | 0 <= i < |p[1..]| - 1 ensures !(p[1..][i] == '\n' && p[1..][i + 1] == '\n') {
        assert !(p[i + 1] == '\n' && p[i + 1 + 1] == '\n');
      }
      BlankLineEnds(p[1..], rest);
    }
  }

  lemma NamesAreTrimmed(k: Kind)
    ensures Trim(Name(k)) == Name(k) && '\n' !in Name(k)
  {
    var n := Name(k);
    assert !IsSpace(n[0]) && !IsSpace(n[|n| - 1]);
  }

  lemma PrintedLines(n: string, j: string)
    requires '\n' !in n && '\n' !in j && Trim(n) == n
    ensures var lines := ["event: " + n, "data: " + j];
            EventName(lines) == n && DataLines(lines) == [j]
  {
    var a, b := "event: " + n, "data: " + j;
    var one := [a];
    assert [a, b][..1] == one && one[..0] == [];
    assert a[7..] == n && b[6..] == j;
    assert b[0] == 'd' && StartsWith(a, "event: ") && StartsWith(b, "data: ");
    assert DataLines(one) == DataLines(one[..0]) + [] == [];
    assert DataLines([a, b]) == DataLines(one) + [j];
  }

  /** One printed event at the head of a stream is exactly one frame, which parses back to it. */
  lemma PrintedFrame<J(!new)>(encode: J -> string, parse: string -> Option<J>, m: Message<J>, rest: string)
    requires JsonCodec(encode, parse)
    ensures var s := Print(Name(m.kind), encode(m.data)) + rest;
            && Leftover(s) == Leftover(rest)
            && DispatchAll(parse, Frames(s)) == [Handed(m)] + DispatchAll(parse, Frames(rest))
  {
    var n, j := Name(m.kind), encode(m.data);
    NamesAreTrimmed(m.kind);
    var a, b := "event: " + n, "data: " + j;
    NoNewline("event: ", n);
    NoNewline("data: ", j);
    TwoLinesNoBlank(a, b);
    var p, s := a + "\n" + b, Print(n, j) + rest;
    assert s == p + "\n\n" + rest;
    BlankLineEnds(p, rest);
    FirstFrame(parse, [], s, p, rest);
    SplitTwoLines(a, b);
    PrintedLines(n, j);
    assert Dispatch(parse, p) == [Handed(m)];
  }

  lemma NoNewline(a: string, b: string)
    requires '\n' !in a && '\n' !in b
    ensures '\n' !in a + b
  {
  }

  lemma TwoLinesNoBlank(a: string, b: string)
    requires '\n' !in a && '\n' !in b && b != ""
    ensures var p := a + "\n" + b;
            p[|p| - 1] != '\n' && forall i | 0 <= i < |p| - 1 :: !(p[i] == '\n' && p[i + 1] == '\n')
  {
    var p := a + "\n" + b;
    assert forall i | 0 <= i < |p| && i != |a| :: p[i] in a || p[i] in b;
  }

  lemma {:induction false} PrintedFrames<J(!new)>(encode: J -> string, parse: string -> Option<J>, ms: seq<Message<J>>)
    requires JsonCodec(encode, parse)
    ensures DispatchAll(parse, Frames(PrintAll(encode, ms))) == HandedAll(ms)
    ensures Leftover(PrintAll(encode, ms)) == ""
    decreases |ms|
  {
    if ms != [] {
      PrintedFrame(encode, parse, ms[0], PrintAll(encode, ms[1..]));
      PrintedFrames(encode, parse, ms[1..]);
    }
  }

  /** Whatever events the server sends and however the bytes are cut - inside a frame, the blank
      line or a character - the client is handed exactly those events, in order. */
  lemma StreamRoundTrip<J(!new)>(encode: J -> string, parse: string -> Option<J>, ms: seq<Message<J>>,
      chunks: seq<seq<byte>>)
    requires JsonCodec(encode, parse) && Flat(chunks) == Encode(PrintAll(encode, ms))
    ensures ReadAll(parse, Stream([], "", []), chunks) == Stream([], "", HandedAll(ms))
  {
    var s: Stream<J> := Stream([], "", []);
    ChunkingIrrelevant(parse, s, chunks);
    var text := PrintAll(encode, ms);
    RoundTrip(text);
    assert [] + Encode(text) == Encode(text) && "" + text == text;
    PrintedFrames(encode, parse, ms);
    assert [] + HandedAll(ms) == HandedAll(ms);
  }

  lemma {:induction false} DeliveredGrows<J>(parse: string -> Option<J>, s: Stream<J>, chunks: seq<seq<byte>>)
    ensures s.delivered <= ReadAll(parse, s, chunks).delivered
    decreases |chunks|
  {
    if chunks != [] { DeliveredGrows(parse, ReadChunk(parse, s, chunks[0]), chunks[1..]); }
  }

  /** If the connection breaks, the client has been handed a prefix of the events and nothing else. */
  lemma BrokenStream<J(!new)>(encode: J -> string, parse: string -> Option<J>, ms: seq<Message<J>>,
                        chunks: seq<seq<byte>>, lost: seq<byte>)
    requires JsonCodec(encode, parse) && Flat(chunks) + lost == Encode(PrintAll(encode, ms))
    ensures ReadAll(parse, Stream([], "", []), chunks).delivered <= HandedAll(ms)
  {
    var s: Stream<J> := Stream([], "", []);
    var t := ReadAll(parse, s, chunks);
    ChunkingIrrelevant(parse, s, chunks);
    ReadJoined(parse, s, Flat(chunks), lost);
    assert Flat([Flat(chunks) + lost]) == Flat(chunks) + lost;
    StreamRoundTrip(encode, parse, ms, [Flat(chunks) + lost]);
    ChunkingIrrelevant(parse, s, [Flat(chunks) + lost]);
    assert ReadChunk(parse, t, lost).delivered == HandedAll(ms);
  }

  /** Server to client: however the response is cut, the handlers get exactly the events sent, whether
      or not some of them throw. */
  method Receive<J(==, !new)>(encode: J -> string, parse: string -> Option<J>, throws: Delivery<J> -> bool,
                              ms: seq<Message<J>>, response: ResponseWriter, chunks: seq<seq<byte>>)
    returns (delivered: seq<Delivery<J>>, reported: seq<Delivery<J>>)
    requires JsonCodec(encode, parse) && response.written == Encode(PrintAll(encode, ms))
              && Flat(chunks) == response.written
    ensures delivered == HandedAll(ms) && reported == Thrown(throws, HandedAll(ms))
  {
    var client := new ChatStream<J>(parse, throws);
    client.ReadChunks(chunks);
    StreamRoundTrip(encode, parse, ms, chunks);
    delivered, reported := client.delivered, client.reported;
  }
}
