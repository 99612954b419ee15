/** The conversation engine of components/ChatInterface.tsx: the message
    lists built by send, edit and model change, the client-side reading of
    the event stream, and the updates one exchange hands to the page. */
module ChatInterface {
  import opened Strings
  import opened Types
  import ChatRoute

  // ----- model change, send, edit ------------------------------------------

  /** `conversation?.model || 'grok-4-fast'`: the model sent with a request. */
  function CurrentModel(conv: Option<Conversation>): (m: string)
    ensures m != ""
    ensures conv.Some? && conv.value.model != "" ==> m == conv.value.model
    ensures (conv.None? || conv.value.model == "") ==> m == DefaultModel
  {
    match conv
    case Some(c) => if c.model != "" then c.model else DefaultModel
    case None => DefaultModel
  }

  /** handleModelChange: the conversation passed up, if there is one. */
  function ChangeModel(conv: Option<Conversation>, model: string, now: int): (r: Option<Conversation>)
    ensures r.None? <==> conv.None?
    ensures r.Some? ==> r.value.model == model && r.value.updatedAt == now &&
                        r.value.(model := conv.value.model, updatedAt := conv.value.updatedAt) == conv.value
  {
    match conv
    case Some(c) => Some(c.(model := model, updatedAt := now))
    case None => None
  }

  /** The conversation handleSend passes up before its request: the user
      message appended, nothing else changed but the update time. */
  function SendUpdate(c: Conversation, userId: string, content: string, now: int): (u: Conversation)
    ensures |u.messages| == |c.messages| + 1
    ensures u.messages[..|c.messages|] == c.messages
    ensures u.messages[|c.messages|] == Message(userId, User, content, now)
    ensures u.updatedAt == now
    ensures u.(messages := c.messages, updatedAt := c.updatedAt) == c
  {
    c.(messages := c.messages + [Message(userId, User, content, now)], updatedAt := now)
  }

  /** `messages.findIndex(m => m.id === id)`, with -1 as None. */
  function MessageIndex(ms: seq<Message>, id: string): (r: Option<nat>)
    ensures r.None? <==> forall k :: 0 <= k < |ms| ==> ms[k].id != id
    ensures r.Some? ==> r.value < |ms| && ms[r.value].id == id &&
                        forall k :: 0 <= k < r.value ==> ms[k].id != id
  {
    if ms == [] then None
    else if ms[0].id == id then Some(0)
    else
      match MessageIndex(ms[1..], id)
      case None => None
      case Some(k) => Some(k + 1)
  }

  /** The conversation handleEditMessage passes up before its request: the
      list cut after the edited message, whose content is replaced. None when
      no message carries the id (the handler returns without a call). */
  function EditUpdate(c: Conversation, messageId: string, newContent: string, now: int): (r: Option<Conversation>)
    ensures r.None? <==> forall k :: 0 <= k < |c.messages| ==> c.messages[k].id != messageId
    ensures r.Some? ==>
              var i := MessageIndex(c.messages, messageId).value;
              var ms := r.value.messages;
              |ms| == i + 1 && ms[..i] == c.messages[..i] &&
              ms[i] == c.messages[i].(content := newContent) && ms[i].id == messageId &&
              r.value.updatedAt == now &&
              r.value.(messages := c.messages, updatedAt := c.updatedAt) == c
  {
    match MessageIndex(c.messages, messageId)
    case None => None
    case Some(i) =>
      var ms := c.messages[..i] + [c.messages[i].(content := newContent)];
      assert ms[..i] == c.messages[..i];
      Some(c.(messages := ms, updatedAt := now))
  }

  // ----- the client's reading of the event stream -------------------------

  /** `JSON.parse(data).content`, kept abstract: None when parsing throws,
      otherwise the content ("" when it is missing or falsy). */
  type Decoder = string -> Option<string>

  /** What one line contributes to the assistant text: the content of a
      `data: ` line other than `data: [DONE]`, when it parses and is
      non-empty. The line is not trimmed. */
  function LineDelta(decode: Decoder, line: string): (ds: seq<string>)
    ensures |ds| <= 1
    ensures ds != [] ==> ds[0] != ""
  {
    if StartsWith(line, DataPrefix) then
      StartsWithSpec(line, DataPrefix);
      var data := line[|DataPrefix|..];
      if data == DoneMarker then [] else ContentDelta(decode(data))
    else []
  }

  /** `if (parsed.content)`: only a non-empty content counts. */
  function ContentDelta(c: Option<string>): (ds: seq<string>)
    ensures ds != [] <==> c.Some? && c.value != ""
    ensures ds != [] ==> ds == [c.value]
  {
    match c
    case Some(s) => if s != "" then [s] else []
    case None => []
  }

  /** The contributions of a list of lines, in order. */
  function LinesDeltas(decode: Decoder, lines: seq<string>): seq<string>
  {
    if lines == [] then []
    else LinesDeltas(decode, lines[..|lines| - 1]) + LineDelta(decode, lines[|lines| - 1])
  }

  /** What one chunk contributes: its lines, split on their own. */
  function ChunkReader(decode: Decoder): string -> seq<string>
  {
    chunk => LinesDeltas(decode, Split(chunk))
  }

  /** The contributions of the chunks, in order, each read by `read`. */
  function Collect(read: string -> seq<string>, chunks: seq<string>): seq<string>
  {
    if chunks == [] then []
    else Collect(read, chunks[..|chunks| - 1]) + read(chunks[|chunks| - 1])
  }

  lemma {:induction false} CollectAppend(read: string -> seq<string>, a: seq<string>, b: seq<string>)
    ensures Collect(read, a + b) == Collect(read, a) + Collect(read, b)
    decreases |b|
  {
    if b == [] {
      assert a + b == a;
    } else {
      var b', x := b[..|b| - 1], b[|b| - 1];
      assert (a + b)[..|a + b| - 1] == a + b' && (a + b)[|a + b| - 1] == x;
      CollectAppend(read, a, b');
      assert Collect(read, b) == Collect(read, b') + read(x);
    }
  }

  /** Each chunk is split on its own: a line cut by a chunk boundary is seen
      as two lines. */
  function Deltas(decode: Decoder, chunks: seq<string>): seq<string>
  {
    Collect(ChunkReader(decode), chunks)
  }

  /** The conversation passed up after a content delta: the request's
      messages followed by the assistant message holding the text so far. */
  function Snapshot(base: Conversation, assistantId: string, text: string, t: int): Conversation
  {
    base.(messages := base.messages + [Message(assistantId, Assistant, text, t)], updatedAt := t)
  }

  /** The snapshots of a stream with these deltas, one per delta; the k-th
      is taken at `clock(k)`. */
  function Snapshots(base: Conversation, assistantId: string, ds: seq<string>, clock: nat -> int): (r: seq<Conversation>)
    ensures |r| == |ds|
  {
    if ds == [] then []
    else
      Snapshots(base, assistantId, ds[..|ds| - 1], clock) +
      [Snapshot(base, assistantId, ConcatAll(ds), clock(|ds| - 1))]
  }

  /** The `while (true)` read loop of handleSend and handleEditMessage: every
      non-empty content appends to `assistantContent` and passes up a new
      snapshot. */
  method ReadStream(decode: Decoder, base: Conversation, assistantId: string, chunks: seq<string>, clock: nat -> int)
    returns (content: string, snapshots: seq<Conversation>)
    ensures content == ConcatAll(Deltas(decode, chunks))
    ensures snapshots == Snapshots(base, assistantId, Deltas(decode, chunks), clock)
  {
    content := "";
    snapshots := [];
    for i := 0 to |chunks|
      invariant content == ConcatAll(Deltas(decode, chunks[..i]))
      invariant snapshots == Snapshots(base, assistantId, Deltas(decode, chunks[..i]), clock)
    {
      content, snapshots := ReadChunk(decode, base, assistantId, clock, chunks, i, content, snapshots);
    }
    assert chunks[..|chunks|] == chunks;
  }

  /** One turn of that loop: the chunk's lines, split on their own. */
  method ReadChunk(decode: Decoder, base: Conversation, assistantId: string, clock: nat -> int,
                   chunks: seq<string>, i: nat, content: string, snapshots: seq<Conversation>)
    returns (content': string, snapshots': seq<Conversation>)
    requires i < |chunks|
    requires content == ConcatAll(Deltas(decode, chunks[..i]))
    requires snapshots == Snapshots(base, assistantId, Deltas(decode, chunks[..i]), clock)
    ensures content' == ConcatAll(Deltas(decode, chunks[..i + 1]))
    ensures snapshots' == Snapshots(base, assistantId, Deltas(decode, chunks[..i + 1]), clock)
  {
    var lines := Split(chunks[i]);
    DeltasPrefix(decode, chunks, i);
    content', snapshots' := ReadLines(decode, base, assistantId, clock, lines, Deltas(decode, chunks[..i]), content, snapshots);
  }

  /** The `for (const line of lines)` loop over one chunk. */
  method ReadLines(decode: Decoder, base: Conversation, assistantId: string, clock: nat -> int,
                   lines: seq<string>, ghost ds: seq<string>, content: string, snapshots: seq<Conversation>)
    returns (content': string, snapshots': seq<Conversation>)
    requires content == ConcatAll(ds)
    requires snapshots == Snapshots(base, assistantId, ds, clock)
    ensures content' == ConcatAll(ds + LinesDeltas(decode, lines))
    ensures snapshots' == Snapshots(base, assistantId, ds + LinesDeltas(decode, lines), clock)
  {
    content', snapshots' := content, snapshots;
    assert ds + LinesDeltas(decode, lines[..0]) == ds;
    for k := 0 to |lines|
      invariant content' == ConcatAll(ds + LinesDeltas(decode, lines[..k]))
      invariant snapshots' == Snapshots(base, assistantId, ds + LinesDeltas(decode, lines[..k]), clock)
    {
      LinesDeltasPrefix(decode, ds, lines, k);
      content', snapshots' := ReadLine(decode, base, assistantId, clock, lines[k], ds + LinesDeltas(decode, lines[..k]), content', snapshots');
    }
    assert lines[..|lines|] == lines;
  }

  /** The body of that loop for one line: a `data: ` line other than DONE
      whose content parses and is non-empty extends the text and passes up
      a snapshot; any other line changes nothing. */
  method ReadLine(decode: Decoder, base: Conversation, assistantId: string, clock: nat -> int,
                  line: string, ghost ds: seq<string>, content: string, snapshots: seq<Conversation>)
    returns (content': string, snapshots': seq<Conversation>)
    requires content == ConcatAll(ds)
    requires snapshots == Snapshots(base, assistantId, ds, clock)
    ensures content' == ConcatAll(ds + LineDelta(decode, line))
    ensures snapshots' == Snapshots(base, assistantId, ds + LineDelta(decode, line), clock)
  {
    content', snapshots' := content, snapshots;
    assert ds + [] == ds;
    if StartsWith(line, DataPrefix) {
      StartsWithSpec(line, DataPrefix);
      var data := line[|DataPrefix|..];
      if data != DoneMarker {
        match decode(data)
        case Some(c) =>
          if c != "" {
            content' := content' + c;
            SnapshotsSnoc(base, assistantId, ds, c, clock);
            snapshots' := snapshots' + [Snapshot(base, assistantId, content', clock(|snapshots'|))];
          }
        case None =>
      }
    }
  }

  lemma LinesDeltasPrefix(decode: Decoder, ds: seq<string>, lines: seq<string>, k: nat)
    requires k < |lines|
    ensures ds + LinesDeltas(decode, lines[..k + 1]) == (ds + LinesDeltas(decode, lines[..k])) + LineDelta(decode, lines[k])
  {
    assert lines[..k + 1][..k] == lines[..k];
  }

  lemma DeltasPrefix(decode: Decoder, chunks: seq<string>, i: nat)
    requires i < |chunks|
    ensures Deltas(decode, chunks[..i + 1]) == Deltas(decode, chunks[..i]) + LinesDeltas(decode, Split(chunks[i]))
  {
    assert chunks[..i + 1][..i] == chunks[..i];
    assert ChunkReader(decode)(chunks[i]) == LinesDeltas(decode, Split(chunks[i]));
  }

  /** One more delta adds one snapshot holding the extended text. */
  lemma SnapshotsSnoc(base: Conversation, assistantId: string, ds: seq<string>, c: string, clock: nat -> int)
    ensures ConcatAll(ds + [c]) == ConcatAll(ds) + c
    ensures Snapshots(base, assistantId, ds + [c], clock) ==
            Snapshots(base, assistantId, ds, clock) + [Snapshot(base, assistantId, ConcatAll(ds) + c, clock(|ds|))]
  {
    assert (ds + [c])[..|ds|] == ds;
  }

  /** The k-th snapshot holds the text of the first k + 1 deltas. */
  lemma {:induction false} SnapshotAt(base: Conversation, assistantId: string, ds: seq<string>, clock: nat -> int, k: nat)
    requires k < |ds|
    ensures Snapshots(base, assistantId, ds, clock)[k] == Snapshot(base, assistantId, ConcatAll(ds[..k + 1]), clock(k))
    decreases |ds|
  {
    var init := ds[..|ds| - 1];
    if k < |init| {
      SnapshotAt(base, assistantId, init, clock, k);
      assert init[..k + 1] == ds[..k + 1];
    } else {
      assert ds[..k + 1] == ds;
    }
  }

  // ----- properties of the client reading ---------------------------------

  /** Every snapshot replaces the previous assistant message instead of
      adding one: it is the request's messages plus one assistant message
      with the fixed id, each snapshot's text extends the one before, and
      apart from its messages and update time each snapshot is the sent
      conversation (`{...updatedConversation, ...}`). */
  lemma SnapshotsReplace(base: Conversation, assistantId: string, ds: seq<string>, clock: nat -> int)
    ensures var s := Snapshots(base, assistantId, ds, clock);
            (forall k :: 0 <= k < |s| ==>
               s[k].(messages := base.messages, updatedAt := base.updatedAt) == base &&
               s[k].updatedAt == clock(k) &&
               |s[k].messages| == |base.messages| + 1 &&
               s[k].messages[..|base.messages|] == base.messages &&
               s[k].messages[|base.messages|].id == assistantId &&
               s[k].messages[|base.messages|].role == Assistant &&
               s[k].messages[|base.messages|].content == ConcatAll(ds[..k + 1])) &&
            (forall k :: 0 < k < |s| ==>
               s[k].messages[|base.messages|].content ==
               s[k - 1].messages[|base.messages|].content + ds[k])
  {
    var s := Snapshots(base, assistantId, ds, clock);
    var n := |base.messages|;
    forall k | 0 <= k < |s|
      ensures |s[k].messages| == n + 1 && s[k].messages[..n] == base.messages
      ensures s[k].messages[n] == Message(assistantId, Assistant, ConcatAll(ds[..k + 1]), clock(k))
    {
      SnapshotAt(base, assistantId, ds, clock, k);
      assert (base.messages + [s[k].messages[n]])[..n] == base.messages;
    }
    forall k | 0 < k < |s|
      ensures s[k].messages[n].content == s[k - 1].messages[n].content + ds[k]
    {
      ConcatAllPrefix(ds, k);
    }
  }

  /** The last snapshot of a stream holds the whole accumulated text. */
  lemma LastSnapshotComplete(base: Conversation, assistantId: string, ds: seq<string>, clock: nat -> int)
    requires ds != []
    ensures var s := Snapshots(base, assistantId, ds, clock);
            s[|s| - 1].messages == base.messages + [Message(assistantId, Assistant, ConcatAll(ds), clock(|ds| - 1))]
  {
  }

  /** The text is the in-order concatenation of what each chunk contributes:
      the reading distributes over the chunk list. */
  lemma DeltasAppend(decode: Decoder, a: seq<string>, b: seq<string>)
    ensures Deltas(decode, a + b) == Deltas(decode, a) + Deltas(decode, b)
  {
    CollectAppend(ChunkReader(decode), a, b);
  }

  /** `data: [DONE]`, lines without the `data: ` prefix (a leading space
      included) and lines that do not parse contribute nothing. */
  lemma SilentLines(decode: Decoder, line: string)
    ensures LineDelta(decode, "data: [DONE]") == []
    ensures !StartsWith(line, DataPrefix) ==> LineDelta(decode, line) == []
    ensures StartsWith(line, DataPrefix) ==>
              (StartsWithSpec(line, DataPrefix);
               decode(line[|DataPrefix|..]).None? ==> LineDelta(decode, line) == [])
  {
    var t := "data: [DONE]";
    StartsWithSpec(t, DataPrefix);
    assert t[..|DataPrefix|] == DataPrefix;
    assert t[|DataPrefix|..] == DoneMarker;
  }

  /** Unlike the server's relay, the client keeps no line buffer: the same
      text cut at a different place reads differently. A `data: ` line with
      content arriving whole yields that content; cut after `da` it yields
      nothing. */
  lemma ChunkingMatters(decode: Decoder, x: string, a: string)
    requires decode(x) == Some(a) && a != ""
    requires '\n' !in x && x != DoneMarker
    ensures Deltas(decode, [DataPrefix + x]) == [a]
    ensures Deltas(decode, ["da", "ta: " + x]) == []
    ensures ConcatAll([DataPrefix + x]) == ConcatAll(["da", "ta: " + x])
  {
    WholeLineRead(decode, x);
    CutLineLost(decode, x);
    SameText(x);
  }

  lemma SameText(x: string)
    ensures ConcatAll([DataPrefix + x]) == ConcatAll(["da", "ta: " + x])
  {
    var tail := "ta: " + x;
    ConcatAllSingle(DataPrefix + x);
    ConcatAllAppend(["da"], [tail]);
    ConcatAllSingle("da");
    ConcatAllSingle(tail);
    assert ["da"] + [tail] == ["da", tail];
    assert DataPrefix + x == "da" + tail;
  }

  /** A chunk holding one whole `data: ` line reads as that line. */
  lemma WholeLineRead(decode: Decoder, x: string)
    requires '\n' !in x
    ensures Deltas(decode, [DataPrefix + x]) == if x == DoneMarker then [] else ContentDelta(decode(x))
  {
    assert '\n' !in DataPrefix + x;
    NewlineFreeChunk(decode, DataPrefix + x);
    DataLine(decode, x);
  }

  /** The same line cut after `da`: neither piece starts with `data: `. */
  lemma CutLineLost(decode: Decoder, x: string)
    requires '\n' !in x
    ensures Deltas(decode, ["da", "ta: " + x]) == []
  {
    var tail := "ta: " + x;
    assert '\n' !in tail;
    DeltasAppend(decode, ["da"], [tail]);
    assert ["da"] + [tail] == ["da", tail];
    NewlineFreeChunk(decode, "da");
    NewlineFreeChunk(decode, tail);
    StartsWithSpec("da", DataPrefix);
    assert tail[0] != DataPrefix[0];
  }

  /** A chunk without a newline is one line. */
  lemma NewlineFreeChunk(decode: Decoder, chunk: string)
    requires '\n' !in chunk
    ensures Deltas(decode, [chunk]) == LineDelta(decode, chunk)
  {
    CollectSingle(ChunkReader(decode), chunk);
    SplitNewlineFree(chunk);
    OneLine(decode, chunk);
  }

  lemma CollectSingle(read: string -> seq<string>, chunk: string)
    ensures Collect(read, [chunk]) == read(chunk)
  {
    var none: seq<string> := [];
    assert [chunk][..0] == none;
  }

  lemma OneLine(decode: Decoder, line: string)
    ensures LinesDeltas(decode, [line]) == LineDelta(decode, line)
  {
    var none: seq<string> := [];
    assert [line][..0] == none;
  }

  /** The line `data: ` + `data` reads as the content `data` decodes to,
      unless `data` is the DONE marker. */
  lemma DataLine(decode: Decoder, data: string)
    ensures LineDelta(decode, DataPrefix + data) ==
            if data == DoneMarker then [] else ContentDelta(decode(data))
  {
    var line := DataPrefix + data;
    assert line[..|DataPrefix|] == DataPrefix;
    assert line[|DataPrefix|..] == data;
    StartsWithSpec(line, DataPrefix);
  }

  /** The relay writes each event as its own chunk: `data: ` + the JSON of
      `{content}` + a blank line, or `data: [DONE]` + a blank line. */
  function Frame(encode: string -> string, e: ChatRoute.Event): string
  {
    match e
    case Content(text) => DataPrefix + encode(text) + "\n\n"
    case Done => DataPrefix + DoneMarker + "\n\n"
  }

  function Frames(encode: string -> string, es: seq<ChatRoute.Event>): seq<string>
  {
    if es == [] then [] else Frames(encode, es[..|es| - 1]) + [Frame(encode, es[|es| - 1])]
  }

  /** The non-empty texts of the Content events, in order. */
  function Texts(es: seq<ChatRoute.Event>): seq<string>
  {
    if es == [] then []
    else Texts(es[..|es| - 1]) + (match es[|es| - 1] case Content(t) => if t != "" then [t] else [] case Done => [])
  }

  /** When each relayed event arrives as a chunk of its own, and the client's
      decoder inverts the relay's encoder (whose output holds no newline and
      is never the DONE marker), the client reads back exactly the non-empty
      texts the relay sent, in order. */
  lemma {:induction false} FramesReadBack(decode: Decoder, encode: string -> string, es: seq<ChatRoute.Event>)
    requires forall t :: decode(encode(t)) == Some(t)
    requires forall t :: '\n' !in encode(t) && encode(t) != DoneMarker
    ensures Deltas(decode, Frames(encode, es)) == Texts(es)
    decreases |es|
  {
    if es != [] {
      var init := es[..|es| - 1];
      var fs := Frames(encode, init);
      var f := Frame(encode, es[|es| - 1]);
      FramesReadBack(decode, encode, init);
      assert (fs + [f])[..|fs|] == fs;
      FrameReadBack(decode, encode, es[|es| - 1]);
    }
  }

  lemma FrameReadBack(decode: Decoder, encode: string -> string, e: ChatRoute.Event)
    requires forall t :: decode(encode(t)) == Some(t)
    requires forall t :: '\n' !in encode(t) && encode(t) != DoneMarker
    ensures LinesDeltas(decode, Split(Frame(encode, e))) ==
            (match e case Content(t) => if t != "" then [t] else [] case Done => [])
  {
    var data := match e case Content(t) => encode(t) case Done => DoneMarker;
    var line := DataPrefix + data;
    assert Frame(encode, e) == line + "\n\n";
    FrameLines(line);
    BlankLinesSilent(decode, line);
    DataLine(decode, data);
  }

  /** A line followed by a blank line splits into the line and two empty
      pieces. */
  lemma FrameLines(line: string)
    requires '\n' !in line
    ensures Split(line + "\n\n") == [line, "", ""]
  {
    SplitNewlineFree(line);
    SplitSnoc(line, '\n');
    SplitSnoc(line + ['\n'], '\n');
    assert line + "\n\n" == (line + ['\n']) + ['\n'];
  }

  lemma BlankLinesSilent(decode: Decoder, line: string)
    ensures LinesDeltas(decode, [line, "", ""]) == LineDelta(decode, line)
  {
    var ls := [line, "", ""];
    assert !StartsWith("", DataPrefix);
    assert ls[..2] == [line, ""];
    assert LinesDeltas(decode, ls) == LinesDeltas(decode, [line, ""]);
    assert [line, ""][..1] == [line];
    assert LinesDeltas(decode, [line, ""]) == LinesDeltas(decode, [line]);
    OneLine(decode, line);
  }

  // ----- one exchange --------------------------------------------------------

  /** How a thrown error ends an exchange: an abort, or another error with
      its `message` ("" when it has none). */
  datatype Failure = Aborted | Thrown(message: string)

  /** How the read loop ended: the stream closed, or a read threw. */
  datatype StreamEnd = Closed | Broken(failure: Failure)

  /** What the client's `fetch('/api/chat')` produced: a thrown error, or a
      response with its `ok` flag, body chunks (decoded text; None for a
      null body) and the way the stream ended. */
  datatype ChatFetch =
    | FetchFailed(failure: Failure)
    | Answered(ok: bool, body: Option<seq<string>>, end: StreamEnd)

  /** What the title request produced: no usable reply (a throw or a
      non-ok status), or the `title` of the reply ("" when missing). */
  datatype TitleFetch = NoTitle | TitleReply(title: string)

  /** The identifiers, times and replies one exchange depends on. The k-th
      update of the exchange is stamped `clock(k)`; send and edit stamp
      their own update with `clock(0)` and hand the exchange `Later(w)`. */
  datatype World = World(
    decode: Decoder,
    assistantId: string,
    errorId: string,
    clock: nat -> int,
    chat: ChatFetch,
    titleFetch: TitleFetch)

  const FallbackError: string := "Failed to get response. Please try again."

  /** The error message appended by the catch block. */
  function ErrorText(message: string): (r: string)
    ensures StartsWith(r, "Error: ")
  {
    var prefix := "Error: ";
    var r := prefix + (if message == "" then FallbackError else message);
    assert r[..|prefix|] == prefix;
    StartsWithSpec(r, prefix);
    r
  }

  /** The catch block: an abort passes nothing up; any other error passes up
      the request's messages followed by one assistant error message. */
  function OnFailure(updated: Conversation, f: Failure, errorId: string, t: int): (r: seq<Conversation>)
    ensures f.Aborted? <==> r == []
    ensures f.Thrown? ==> |r| == 1 &&
                          r[0].messages == updated.messages + [Message(errorId, Assistant, ErrorText(f.message), t)]
    ensures r != [] ==> r[0].(messages := updated.messages, updatedAt := updated.updatedAt) == updated &&
                        r[0].updatedAt == t
  {
    match f
    case Aborted => []
    case Thrown(m) =>
      [updated.(messages := updated.messages + [Message(errorId, Assistant, ErrorText(m), t)], updatedAt := t)]
  }

  /** The condition for requesting a title. */
  predicate TitleRequested(updated: Conversation, finalMessages: seq<Message>) {
    updated.title == DefaultTitle && |finalMessages| >= 2
  }

  /** The titled conversation passed up when the title request succeeds. */
  function OnTitle(updated: Conversation, finalMessages: seq<Message>, tf: TitleFetch, t: int): (r: seq<Conversation>)
    ensures |r| <= 1
    ensures r != [] <==> TitleRequested(updated, finalMessages) && tf.TitleReply?
    ensures r != [] ==> r[0].messages == finalMessages &&
                        r[0].title == (if tf.title == "" then DefaultTitle else tf.title)
    ensures r != [] ==> r[0].(title := updated.title, messages := updated.messages, updatedAt := updated.updatedAt) == updated &&
                        r[0].updatedAt == t
  {
    if TitleRequested(updated, finalMessages) then
      match tf
      case NoTitle => []
      case TitleReply(title) =>
        [updated.(title := if title == "" then DefaultTitle else title, messages := finalMessages, updatedAt := t)]
    else []
  }

  /** Every conversation an exchange passes up after the first one, in order.
      `updated` is the conversation passed up before the request (whose
      title is that of the conversation the handler was called with). */
  function Exchange(updated: Conversation, w: World): (r: seq<Conversation>)
    ensures forall k :: 0 <= k < |r| ==> KeepsRequest(updated, r[k])
  {
    match Rejection(w.chat)
    case Some(f) =>
      FailureKeepsRequest(updated, f, w.errorId, w.clock(0));
      OnFailure(updated, f, w.errorId, w.clock(0))
    case None => AfterRead(updated, w, w.chat.end, Deltas(w.decode, w.chat.body.value))
  }

  /** The error an exchange fails with before reading a body: the one
      `fetch` threw, `Failed to get response` for a non-ok status, `No
      response body` for a null body. */
  function Rejection(chat: ChatFetch): (r: Option<Failure>)
    ensures r.None? <==> chat.Answered? && chat.ok && chat.body.Some?
    ensures chat.Answered? && !chat.ok ==> r == Some(Thrown("Failed to get response"))
    ensures chat.Answered? && chat.ok && chat.body.None? ==> r == Some(Thrown("No response body"))
    ensures chat.FetchFailed? ==> r == Some(chat.failure)
  {
    match chat
    case FetchFailed(f) => Some(f)
    case Answered(ok, body, _) =>
      if !ok then Some(Thrown("Failed to get response"))
      else if body.None? then Some(Thrown("No response body"))
      else None
  }

  /** What an exchange passes up once its read loop has found the deltas
      `ds`: a snapshot per delta, then the error message or the titled
      conversation. */
  function AfterRead(updated: Conversation, w: World, end: StreamEnd, ds: seq<string>): (r: seq<Conversation>)
    ensures |ds| <= |r| <= |ds| + 1 && r[..|ds|] == Snapshots(updated, w.assistantId, ds, w.clock)
    ensures forall k :: 0 <= k < |r| ==> KeepsRequest(updated, r[k])
  {
    var t := w.clock(|ds|);
    var snapshots := Snapshots(updated, w.assistantId, ds, w.clock);
    SnapshotsKeepRequest(updated, w.assistantId, ds, w.clock);
    match end
    case Broken(f) =>
      FailureKeepsRequest(updated, f, w.errorId, t);
      var r := snapshots + OnFailure(updated, f, w.errorId, t);
      assert r[..|ds|] == snapshots;
      r
    case Closed =>
      var finalMessages := updated.messages + [Message(w.assistantId, Assistant, ConcatAll(ds), t)];
      assert finalMessages[..|updated.messages|] == updated.messages;
      var r := snapshots + OnTitle(updated, finalMessages, w.titleFetch, t);
      assert r[..|ds|] == snapshots;
      r
  }

  /** The world an exchange sees once send or edit have stamped their own
      update with `clock(0)`: each `Date.now()` after the request is a
      later reading. */
  function Later(w: World): (r: World)
    ensures forall k: nat :: r.clock(k) == w.clock(k + 1)
    ensures r.(clock := w.clock) == w
  {
    w.(clock := (k: nat) => w.clock(k + 1))
  }

  /** handleSend: nothing without a conversation; otherwise the conversation
      with the user message, then what the exchange passes up. */
  function Send(conv: Option<Conversation>, userId: string, content: string, w: World): (r: seq<Conversation>)
    ensures r == [] <==> conv.None?
    ensures conv.Some? ==> r[0] == SendUpdate(conv.value, userId, content, w.clock(0))
    ensures conv.Some? ==> forall k :: 1 <= k < |r| ==> KeepsRequest(r[0], r[k])
    ensures conv.Some? ==> forall k :: 0 <= k < |r| ==> SameConversation(conv.value, r[k])
  {
    match conv
    case None => []
    case Some(c) =>
      var u := SendUpdate(c, userId, content, w.clock(0));
      var ex := Exchange(u, Later(w));
      PassUp(c, u, ex);
      [u] + ex
  }

  /** handleEditMessage: nothing without a conversation or when no message
      carries the id; otherwise the cut list, then the exchange. */
  function Edit(conv: Option<Conversation>, messageId: string, newContent: string, w: World): (r: seq<Conversation>)
    ensures r != [] <==> conv.Some? && EditUpdate(conv.value, messageId, newContent, w.clock(0)).Some?
    ensures r != [] ==> r[0] == EditUpdate(conv.value, messageId, newContent, w.clock(0)).value
    ensures r != [] ==> forall k :: 1 <= k < |r| ==> KeepsRequest(r[0], r[k])
    ensures r != [] ==> forall k :: 0 <= k < |r| ==> SameConversation(conv.value, r[k])
  {
    match conv
    case None => []
    case Some(c) =>
      match EditUpdate(c, messageId, newContent, w.clock(0))
      case None => []
      case Some(u) =>
        var ex := Exchange(u, Later(w));
        PassUp(c, u, ex);
        [u] + ex
  }

  /** The first update and those of its exchange, passed up in order. */
  lemma PassUp(c: Conversation, u: Conversation, ex: seq<Conversation>)
    requires u.(messages := c.messages, updatedAt := c.updatedAt) == c
    requires forall k :: 0 <= k < |ex| ==> KeepsRequest(u, ex[k])
    ensures var r := [u] + ex;
            (forall k :: 1 <= k < |r| ==> KeepsRequest(r[0], r[k])) &&
            (forall k :: 0 <= k < |r| ==> SameConversation(c, r[k]))
  {
    var r := [u] + ex;
    assert forall k :: 1 <= k < |r| ==> r[k] == ex[k - 1];
  }

  /** The body of the client's request to the chat endpoint. */
  function ChatRequest(updated: Conversation, conv: Option<Conversation>): ChatRoute.Request
  {
    ChatRoute.Request(Some(ToWire(updated.messages)), Some(true), Some(CurrentModel(conv)))
  }

  // ----- properties of an exchange ---------------------------------------------

  /** The request built by send or edit is always accepted by the chat
      endpoint, streams, and goes upstream with the conversation's model
      (or the default model) and the messages unchanged. */
  lemma RequestAccepted(j: ChatRoute.UpstreamJson, updated: Conversation, conv: Option<Conversation>,
                        first: ChatRoute.Reply, retry: ChatRoute.Reply)
    ensures var h := ChatRoute.Post(j, ChatRoute.Parsed(ChatRequest(updated, conv)), first, retry);
            h.response != ChatRoute.Invalid &&
            h.calls[0] == ChatRoute.UpstreamCall(CurrentModel(conv), ToWire(updated.messages), true)
  {
    ChatRoute.PostValidates(j, ChatRequest(updated, conv), first, retry);
    ChatRoute.PostDefaults(j, ChatRequest(updated, conv), first, retry);
  }

  /** After send or edit the list holds at least one message, so a title is
      requested exactly when the conversation is still called "New Chat". */
  lemma TitleRequestedOnDefault(updated: Conversation, assistant: Message)
    requires |updated.messages| >= 1
    ensures TitleRequested(updated, updated.messages + [assistant]) <==> updated.title == DefaultTitle
  {
  }

  /** A stream that was read to its end without a title request passes up
      only the snapshots (the last of which holds the whole text). */
  lemma ClosedStreamWithoutTitle(updated: Conversation, w: World, ds: seq<string>)
    requires updated.title != DefaultTitle
    ensures AfterRead(updated, w, Closed, ds) == Snapshots(updated, w.assistantId, ds, w.clock)
  {
    var t := w.clock(|ds|);
    var finalMessages := updated.messages + [Message(w.assistantId, Assistant, ConcatAll(ds), t)];
    assert OnTitle(updated, finalMessages, w.titleFetch, t) == [];
  }

  /** A failure other than an abort ends the exchange with the request's
      messages plus one error message, dropping any partial assistant text;
      an abort ends it with nothing more. */
  lemma FailureEndsExchange(updated: Conversation, w: World, f: Failure, ds: seq<string>)
    ensures var xs := AfterRead(updated, w, Broken(f), ds);
            (f.Aborted? ==> xs == Snapshots(updated, w.assistantId, ds, w.clock)) &&
            (f.Thrown? ==>
               |xs| == |ds| + 1 &&
               xs[|ds|].messages == updated.messages +
                 [Message(w.errorId, Assistant, ErrorText(f.message), w.clock(|ds|))])
  {
    var tail := OnFailure(updated, f, w.errorId, w.clock(|ds|));
    assert f.Aborted? ==> tail == [];
  }

  /** The titled update carries the final messages and the returned title,
      or "New Chat" when the reply's title is empty. */
  lemma TitledUpdate(updated: Conversation, w: World, ds: seq<string>)
    requires updated.title == DefaultTitle && |updated.messages| >= 1 && w.titleFetch.TitleReply?
    ensures var xs := AfterRead(updated, w, Closed, ds);
            |xs| == |ds| + 1 &&
            xs[|ds|].messages == updated.messages +
              [Message(w.assistantId, Assistant, ConcatAll(ds), w.clock(|ds|))] &&
            xs[|ds|].title == (if w.titleFetch.title == "" then DefaultTitle else w.titleFetch.title)
  {
  }

  /** Editing a message no message carries passes nothing up and sends no
      request. */
  lemma EditUnknownId(c: Conversation, messageId: string, newContent: string, w: World)
    requires forall k :: 0 <= k < |c.messages| ==> c.messages[k].id != messageId
    ensures Edit(Some(c), messageId, newContent, w) == []
  {
  }

  /** The same conversation, as the page's upsert by id sees it: the id,
      model and creation time are kept. */
  predicate SameConversation(c: Conversation, x: Conversation) {
    x.id == c.id && x.model == c.model && x.createdAt == c.createdAt
  }

  /** An update built on the conversation sent: the same conversation, with
      the sent messages followed by one assistant message. */
  predicate KeepsRequest(updated: Conversation, x: Conversation) {
    SameConversation(updated, x) &&
    |x.messages| == |updated.messages| + 1 && x.messages[..|updated.messages|] == updated.messages
  }

  /** A failed request, a non-ok status, a null body and a failed read each
      end with at most one update: the sent messages followed by one error
      message (an abort passes up nothing). */
  lemma FailureKeepsRequest(updated: Conversation, f: Failure, errorId: string, t: int)
    ensures forall x :: x in OnFailure(updated, f, errorId, t) ==>
              KeepsRequest(updated, x) && StartsWith(x.messages[|updated.messages|].content, "Error: ")
  {
    if f.Thrown? {
      var m := Message(errorId, Assistant, ErrorText(f.message), t);
      assert (updated.messages + [m])[..|updated.messages|] == updated.messages;
    }
  }

  lemma SnapshotsKeepRequest(updated: Conversation, assistantId: string, ds: seq<string>, clock: nat -> int)
    ensures forall x :: x in Snapshots(updated, assistantId, ds, clock) ==> KeepsRequest(updated, x)
  {
    SnapshotsReplace(updated, assistantId, ds, clock);
  }
}
