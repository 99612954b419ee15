/** The chat endpoint (app/api/chat/route.ts): request validation and
    defaulting, the streaming request with its non-streaming fallback, and the
    relay that re-frames the upstream event stream line by line. */
module ChatRoute {
  import opened Strings
  import opened Types

  // ----- events and the upstream line format -----------------------------

  /** What the relay emits: `data: {"content": text}` or `data: [DONE]`. */
  datatype Event = Content(text: string) | Done

  /** JSON parsing, kept abstract. Each function is applied to the text that
      `JSON.parse` sees and yields None when parsing (or the property access
      after it) throws; otherwise the extracted `content` with the code's
      `|| ''` already applied. `deltaContent` reads
      `choices[0].delta.content`, `messageContent` `choices[0].message.content`. */
  datatype UpstreamJson = UpstreamJson(
    deltaContent: string -> Option<string>,
    messageContent: string -> Option<string>)

  /** A non-empty extracted content becomes one event; anything else none. */
  function ContentEvent(c: Option<string>): (es: seq<Event>)
    ensures es != [] <==> c.Some? && c.value != ""
    ensures es != [] ==> es == [Content(c.value)]
  {
    match c
    case Some(s) => if s != "" then [Content(s)] else []
    case None => []
  }

  /** The events one complete upstream line produces. */
  function LineEvents(j: UpstreamJson, line: string): (es: seq<Event>)
    ensures |es| <= 1
  {
    var t := Trim(line);
    if t == "" then []
    else if StartsWith(t, DataPrefix) then
      StartsWithSpec(t, DataPrefix);
      var data := t[|DataPrefix|..];
      if data == DoneMarker then [Done] else ContentEvent(j.deltaContent(data))
    else if StartsWith(t, "{") then ContentEvent(j.messageContent(t))
    else []
  }

  /** The events of a list of lines, in order. */
  function EventsOfLines(j: UpstreamJson, lines: seq<string>): seq<Event>
  {
    if lines == [] then []
    else EventsOfLines(j, lines[..|lines| - 1]) + LineEvents(j, lines[|lines| - 1])
  }

  /** The newline-terminated lines of a text: every piece but the last. */
  function CompleteLines(text: string): seq<string>
  {
    var p := Split(text);
    p[..|p| - 1]
  }

  /** The text after the last newline: what the relay keeps in its buffer. */
  function Leftover(text: string): string
  {
    var p := Split(text);
    p[|p| - 1]
  }

  /** The upstream body as the relay reads it: decoded chunks, then either
      the end of the stream or a read that fails. */
  datatype ByteSource = ByteSource(chunks: seq<string>, failed: bool)

  /** What the relay has emitted when it stops, and whether the stream was
      put in the error state. */
  datatype Relayed = Relayed(events: seq<Event>, errored: bool)

  /** The relay's output as a function of the whole upstream text. */
  function Relay(j: UpstreamJson, src: ByteSource): Relayed
  {
    var es := EventsOfLines(j, CompleteLines(ConcatAll(src.chunks)));
    if src.failed then Relayed(es, true) else Relayed(es + [Done], false)
  }

  // ----- the relay loop ----------------------------------------------------

  /** The `ReadableStream.start` loop: append each chunk to `buffer`, split it
      on newlines, keep the last piece, turn every complete line into events;
      after the last chunk emit one final DONE. Its output is a function of
      the concatenated upstream text, whatever the chunk boundaries. */
  method Reframe(j: UpstreamJson, src: ByteSource) returns (events: seq<Event>, errored: bool)
    ensures Relayed(events, errored) == Relay(j, src)
  {
    var buffer := "";
    events := [];
    ghost var processed: seq<string> := [];
    var i := 0;
    assert src.chunks[..0] == [];
    while i < |src.chunks|
      invariant 0 <= i <= |src.chunks|
      invariant processed + [buffer] == Split(ConcatAll(src.chunks[..i]))
      invariant events == EventsOfLines(j, processed)
    {
      ChunkStep(ConcatAll(src.chunks[..i]), processed, buffer, src.chunks[i]);
      ConcatAllPrefix(src.chunks, i);
      var lines := Split(buffer + src.chunks[i]);
      buffer := lines[|lines| - 1];
      lines := lines[..|lines| - 1];
      events := EmitLines(j, events, lines);
      EventsOfLinesAppend(j, processed, lines);
      processed := processed + lines;
      i := i + 1;
    }
    assert src.chunks[..i] == src.chunks;
    if src.failed {
      errored := true;
    } else {
      events := events + [Done];
      errored := false;
    }
  }

  /** The `for (const line of lines)` loop of one relay turn: each line's
      events are enqueued after those already emitted. */
  method EmitLines(j: UpstreamJson, emitted: seq<Event>, lines: seq<string>) returns (events: seq<Event>)
    ensures events == emitted + EventsOfLines(j, lines)
  {
    events := emitted;
    for k := 0 to |lines|
      invariant events == emitted + EventsOfLines(j, lines[..k])
    {
      EventsOfLinesPrefix(j, lines, k);
      events := events + LineEvents(j, lines[k]);
    }
    assert lines[..|lines|] == lines;
  }

  lemma EventsOfLinesPrefix(j: UpstreamJson, lines: seq<string>, k: nat)
    requires k < |lines|
    ensures EventsOfLines(j, lines[..k + 1]) == EventsOfLines(j, lines[..k]) + LineEvents(j, lines[k])
  {
    assert lines[..k + 1][..k] == lines[..k];
  }

  lemma EventsOfLinesSnoc(j: UpstreamJson, a: seq<string>, x: string)
    ensures EventsOfLines(j, a + [x]) == EventsOfLines(j, a) + LineEvents(j, x)
  {
    assert (a + [x])[..|a|] == a;
  }

  /** One turn of the relay loop on the split of everything read so far. */
  lemma ChunkStep(before: string, processed: seq<string>, buffer: string, chunk: string)
    requires processed + [buffer] == Split(before)
    ensures var p := Split(buffer + chunk);
            (processed + p[..|p| - 1]) + [p[|p| - 1]] == Split(before + chunk)
  {
    ChunkSplit(before, processed, buffer, chunk);
    SplitLast(processed, Split(buffer + chunk));
  }

  lemma ChunkSplit(before: string, processed: seq<string>, buffer: string, chunk: string)
    requires processed + [buffer] == Split(before)
    ensures Split(before + chunk) == processed + Split(buffer + chunk)
  {
    var s := Split(before);
    assert s[..|s| - 1] == processed;
    SplitAppend(before, chunk);
  }

  lemma SplitLast(processed: seq<string>, p: seq<string>)
    requires p != []
    ensures processed + p == (processed + p[..|p| - 1]) + [p[|p| - 1]]
  {
    assert p == p[..|p| - 1] + [p[|p| - 1]];
  }

  // ----- properties of the relay -------------------------------------------

  /** The line buffer after a chunk is the text after the last newline of the
      old buffer plus the chunk, and the complete lines of the whole text are
      those seen before followed by those the chunk completes: the loop's
      output does not depend on where chunk boundaries fall. */
  lemma CompleteLinesStep(s: string, t: string)
    ensures CompleteLines(s + t) == CompleteLines(s) + CompleteLines(Leftover(s) + t)
    ensures Leftover(s + t) == Leftover(Leftover(s) + t)
  {
    SplitAppend(s, t);
    var p := Split(s);
    var q := Split(Leftover(s) + t);
    assert (p[..|p| - 1] + q)[..|p| - 1 + |q| - 1] == p[..|p| - 1] + q[..|q| - 1];
  }

  /** The complete lines, joined back with their newlines and followed by the
      leftover, give the text back; none of them contains a newline. */
  lemma CompleteLinesCover(text: string)
    ensures Join(CompleteLines(text) + [Leftover(text)], "\n") == text
    ensures '\n' !in Leftover(text)
    ensures forall k :: 0 <= k < |CompleteLines(text)| ==> '\n' !in CompleteLines(text)[k]
  {
    var p := Split(text);
    assert CompleteLines(text) + [Leftover(text)] == p;
    JoinSplit(text);
    SplitPiecesNewlineFree(text);
  }

  /** A trailing piece with no newline after it is never processed. */
  lemma TrailingPieceIgnored(j: UpstreamJson, chunks: seq<string>, tail: string)
    requires '\n' !in tail
    ensures Relay(j, ByteSource(chunks + [tail], false)) == Relay(j, ByteSource(chunks, false))
  {
    var s := ConcatAll(chunks);
    assert (chunks + [tail])[..|chunks|] == chunks;
    assert ConcatAll(chunks + [tail]) == s + tail;
    CompleteLinesStep(s, tail);
    var l := Leftover(s);
    CompleteLinesCover(s);
    assert '\n' !in l + tail;
    SplitNewlineFree(l + tail);
    assert CompleteLines(l + tail) == [];
    assert CompleteLines(s) + [] == CompleteLines(s);
  }

  lemma {:induction false} EventsOfLinesAppend(j: UpstreamJson, a: seq<string>, b: seq<string>)
    ensures EventsOfLines(j, a + b) == EventsOfLines(j, a) + EventsOfLines(j, b)
    decreases |b|
  {
    if b == [] {
      assert a + b == a;
    } else {
      var b' := b[..|b| - 1];
      assert (a + b)[..|a + b| - 1] == a + b';
      EventsOfLinesAppend(j, a, b');
    }
  }

  /** A stream that ends normally ends with exactly one DONE added by the
      relay after every line's events; a stream that fails gets none. */
  lemma RelayEnd(j: UpstreamJson, src: ByteSource)
    ensures !src.failed ==> Relay(j, src).events[|Relay(j, src).events| - 1] == Done
    ensures !src.failed ==> Relay(j, src).events[..|Relay(j, src).events| - 1] ==
                            Relay(j, ByteSource(src.chunks, true)).events
    ensures Relay(j, src).errored == src.failed
  {
  }

  /** Whitespace-only lines produce nothing. */
  lemma BlankLineSilent(j: UpstreamJson, line: string)
    requires AllSpace(line)
    ensures LineEvents(j, line) == []
  {
    TrimSpec(line);
  }

  /** A stream made of one newline-terminated line relays that line's
      events followed by the final DONE. */
  lemma SingleLineRelay(j: UpstreamJson, line: string)
    requires '\n' !in line
    ensures Relay(j, ByteSource([line + "\n"], false)).events == LineEvents(j, line) + [Done]
  {
    ConcatAllSingle(line + "\n");
    TerminatedLine(line);
    EventsOfLinesSnoc(j, [], line);
  }

  lemma TerminatedLine(line: string)
    requires '\n' !in line
    ensures CompleteLines(line + "\n") == [line]
  {
    SplitNewlineFree(line);
    SplitSnoc(line, '\n');
  }

  /** A line that trims to `data: [DONE]` is passed on as DONE and the relay
      goes on reading, so its output can hold more than one DONE. */
  lemma DoneLinePassesThrough(j: UpstreamJson, line: string)
    requires '\n' !in line && Trim(line) == DataPrefix + DoneMarker
    ensures Relay(j, ByteSource([line + "\n"], false)).events == [Done, Done]
  {
    SingleLineRelay(j, line);
    DoneLine(j, line);
  }

  lemma DoneLine(j: UpstreamJson, line: string)
    requires Trim(line) == DataPrefix + DoneMarker
    ensures LineEvents(j, line) == [Done]
  {
    var t := Trim(line);
    StartsWithSpec(t, DataPrefix);
    assert t[..|DataPrefix|] == DataPrefix;
    assert t[|DataPrefix|..] == DoneMarker;
  }

  /** A `data:` line (other than the DONE marker) emits one Content exactly
      when it parses and its delta content is non-empty; otherwise nothing,
      and the stream goes on. */
  lemma DataLineEvents(j: UpstreamJson, line: string)
    requires |DataPrefix| <= |Trim(line)| && Trim(line)[..|DataPrefix|] == DataPrefix
    requires Trim(line)[|DataPrefix|..] != DoneMarker
    ensures var c := j.deltaContent(Trim(line)[|DataPrefix|..]);
            (LineEvents(j, line) != [] <==> c.Some? && c.value != "") &&
            (LineEvents(j, line) != [] ==> LineEvents(j, line) == [Content(c.value)])
  {
    StartsWithSpec(Trim(line), DataPrefix);
  }

  /** A bare JSON object line emits one Content exactly when its message
      content parses and is non-empty; a line that is neither an event line
      nor a JSON object emits nothing. */
  lemma OtherLineEvents(j: UpstreamJson, line: string)
    requires !StartsWith(Trim(line), DataPrefix)
    ensures StartsWith(Trim(line), "{") ==>
              var c := j.messageContent(Trim(line));
              (LineEvents(j, line) != [] <==> c.Some? && c.value != "") &&
              (LineEvents(j, line) != [] ==> LineEvents(j, line) == [Content(c.value)])
    ensures !StartsWith(Trim(line), "{") ==> LineEvents(j, line) == []
  {
  }

  // ----- the POST handler ----------------------------------------------------

  /** The upstream body parsed as JSON (`apiResponse.json()`): either it throws
      with a message, or `choices?.[0]?.message?.content` is read from it. */
  datatype Payload = NotJson(error: string) | Json(content: Option<string>)

  /** One upstream HTTP response: status, `text()` (read on the error paths),
      the JSON payload (read on success without streaming) and the body
      stream (read on streaming success; None is a null body). */
  datatype Reply = Reply(status: nat, text: string, payload: Payload, body: Option<ByteSource>)

  predicate IsOk(r: Reply) {
    200 <= r.status <= 299
  }

  /** The one failure that triggers the non-streaming retry. */
  predicate StreamingUnsupported(r: Reply) {
    r.status == 404 && Contains(r.text, "Streaming not supported")
  }

  /** The request body as destructured by the handler. `messages` is None when
      the field is missing or not an array; `stream` and `model` are None when
      absent. */
  datatype Request = Request(messages: Option<seq<WireMessage>>, stream: Option<bool>, model: Option<string>)

  /** `request.json()`: a body that does not parse throws with a message. */
  datatype RequestBody = Malformed(error: string) | Parsed(req: Request)

  /** A request sent upstream (the fixed temperature is left out). */
  datatype UpstreamCall = UpstreamCall(model: string, messages: seq<WireMessage>, stream: bool)

  datatype ChatResponse =
    | Invalid                                          // 400 'Messages array is required'
    | Failed(status: nat, error: string, model: string) // the catch-all error response
    | Complete(content: string)                         // non-streaming `{content}`
    | EventStream(events: seq<Event>, errored: bool)    // text/event-stream

  /** The response together with the upstream requests made for it, in order. */
  datatype Handled = Handled(response: ChatResponse, calls: seq<UpstreamCall>)

  function OrEmpty(o: Option<string>): string {
    match o
    case Some(s) => s
    case None => ""
  }

  /** `model || 'grok-4-fast'`, after the destructuring default. */
  function SelectedModel(req: Request): (m: string)
    ensures m != ""
    ensures req.model.Some? && req.model.value != "" ==> m == req.model.value
    ensures req.model.None? || req.model.value == "" ==> m == DefaultModel
  {
    match req.model
    case Some(m) => if m != "" then m else DefaultModel
    case None => DefaultModel
  }

  /** `stream = false` when absent. */
  function Streaming(req: Request): bool {
    match req.stream
    case Some(b) => b
    case None => false
  }

  function UpstreamError(r: Reply): string {
    "API returned " + NatToString(r.status) + ": " + r.text
  }

  /** The catch block: `error.message || 'Failed to process chat completion'`
      with status 500 (thrown errors carry no status). */
  function Fail(message: string, model: string): ChatResponse {
    Failed(500, if message == "" then "Failed to process chat completion" else message, model)
  }

  /** The handler. `first` is the reply to the first upstream request and
      `retry` the reply to the non-streaming retry, read only when the
      fallback is taken. */
  function Post(j: UpstreamJson, body: RequestBody, first: Reply, retry: Reply): Handled
  {
    match body
    case Malformed(e) => Handled(Fail(e, DefaultModel), [])
    case Parsed(req) =>
      match req.messages
      case None => Handled(Invalid, [])
      case Some(msgs) =>
        var model := SelectedModel(req);
        if Streaming(req) then
          var call := UpstreamCall(model, msgs, true);
          if !IsOk(first) then
            if StreamingUnsupported(first) then
              var calls := [call, UpstreamCall(model, msgs, false)];
              if !IsOk(retry) then Handled(Fail(UpstreamError(retry), model), calls)
              else match retry.payload
                case NotJson(e) => Handled(Fail(e, model), calls)
                case Json(c) => Handled(EventStream([Content(OrEmpty(c)), Done], false), calls)
            else Handled(Fail(UpstreamError(first), model), [call])
          else match first.body
            case None => Handled(Fail("No response body from upstream API", model), [call])
            case Some(src) =>
              var r := Relay(j, src);
              Handled(EventStream(r.events, r.errored), [call])
        else
          var call := UpstreamCall(model, msgs, false);
          if !IsOk(first) then Handled(Fail(UpstreamError(first), model), [call])
          else match first.payload
            case NotJson(e) => Handled(Fail(e, model), [call])
            case Json(c) => Handled(Complete(OrEmpty(c)), [call])
  }

  /** A missing or non-array `messages` is rejected with 400 before any
      upstream request. An empty array is accepted. */
  lemma PostValidates(j: UpstreamJson, req: Request, first: Reply, retry: Reply)
    ensures req.messages.None? <==> Post(j, Parsed(req), first, retry).response == Invalid
    ensures req.messages.None? ==> Post(j, Parsed(req), first, retry).calls == []
    ensures req.messages.Some? ==> |Post(j, Parsed(req), first, retry).calls| >= 1
  {
  }

  /** Every upstream request carries the client's messages unchanged, the
      selected model (default 'grok-4-fast'), and streaming only when the
      request asked for it (default false); only the first request may
      stream. */
  lemma PostDefaults(j: UpstreamJson, req: Request, first: Reply, retry: Reply)
    requires req.messages.Some?
    ensures var calls := Post(j, Parsed(req), first, retry).calls;
            calls[0] == UpstreamCall(SelectedModel(req), req.messages.value, Streaming(req)) &&
            forall k :: 1 <= k < |calls| ==> calls[k] == UpstreamCall(SelectedModel(req), req.messages.value, false)
    ensures req.model.None? ==> SelectedModel(req) == "grok-4-fast"
    ensures req.stream.None? ==> !Streaming(req)
  {
  }

  /** A streaming request is retried exactly when the first reply is a 404
      whose body says "Streaming not supported"; then the client sees the
      full content as one Content event followed by one DONE. Any other
      failure of the first request is reported without a retry. */
  lemma PostFallback(j: UpstreamJson, req: Request, first: Reply, retry: Reply)
    requires req.messages.Some? && Streaming(req)
    ensures var h := Post(j, Parsed(req), first, retry);
            (|h.calls| == 2 <==> !IsOk(first) && StreamingUnsupported(first)) &&
            (|h.calls| == 2 && IsOk(retry) && retry.payload.Json? ==>
               h.response == EventStream([Content(OrEmpty(retry.payload.content)), Done], false)) &&
            (!IsOk(first) && !StreamingUnsupported(first) ==>
               h.response == Failed(500, UpstreamError(first), SelectedModel(req)) && |h.calls| == 1)
  {
  }

  /** On streaming success the response is the relay of the upstream body. */
  lemma PostRelays(j: UpstreamJson, req: Request, first: Reply, retry: Reply)
    requires req.messages.Some? && Streaming(req) && IsOk(first) && first.body.Some?
    ensures Post(j, Parsed(req), first, retry).response ==
            EventStream(Relay(j, first.body.value).events, Relay(j, first.body.value).errored)
  {
  }
}
