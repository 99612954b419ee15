/** The title generator of app/api/generate-title/route.ts: the request
    check, the prompt built from the conversation, and the cleanup of the
    title the upstream model returns. */
module TitleRoute {
  import opened Types
  import opened Strings
  import ChatRoute

  // ----- the prompt ------------------------------------------------------------

  const TitleModel: string := "grok-4-fast"
  const MaxTokens: nat := 30

  const SystemPrompt: string :=
    "You are a helpful assistant that generates concise, descriptive titles for conversations. " +
    "Return only the title text, no quotes or markdown."

  /** The fixed text before the transcript in the user prompt. */
  const PromptHead: string :=
    "Based on the following conversation, generate a concise, descriptive title (maximum 60 characters). " +
    "The title should capture the main topic or question being discussed. " +
    "Return only the title, no quotes or additional text.\n\nConversation:\n"

  /** The fixed text after the transcript. */
  const PromptTail: string := "\n\nTitle:"

  const Separator: string := "\n\n"

  /** One message of the transcript, `role: content`. */
  function Line(m: WireMessage): string {
    m.role + ": " + m.content
  }

  function Lines(ms: seq<WireMessage>): (r: seq<string>)
    ensures |r| == |ms|
    ensures forall k :: 0 <= k < |ms| ==> r[k] == Line(ms[k])
  {
    if ms == [] then [] else [Line(ms[0])] + Lines(ms[1..])
  }

  /** The messages rendered in order, separated by blank lines. */
  function Transcript(ms: seq<WireMessage>): string {
    Join(Lines(ms), Separator)
  }

  function Prompt(ms: seq<WireMessage>): string {
    PromptHead + Transcript(ms) + PromptTail
  }

  // ----- the title cleanup --------------------------------------------------------

  predicate IsQuote(c: char) {
    c == '"' || c == '\''
  }

  /** `replace(/^["']|["']$/g, '')`: a quote at the start and a quote at the
      end are removed, the second match starting where the first ended (so a
      lone quote is removed once). */
  function StripQuotes(s: string): string {
    var t := if |s| > 0 && IsQuote(s[0]) then s[1..] else s;
    if |t| > 0 && IsQuote(t[|t| - 1]) then t[..|t| - 1] else t
  }

  const MaxTitleLength: nat := 60

  /** `content?.trim() || 'New Chat'`. */
  function Trimmed(content: Option<string>): (t: string)
    ensures t != ""
  {
    match content
    case Some(s) => if Trim(s) == "" then DefaultTitle else Trim(s)
    case None => DefaultTitle
  }

  /** The title returned to the client. */
  function CleanTitle(content: Option<string>): (r: string)
    ensures |r| <= MaxTitleLength
  {
    var t := StripQuotes(Trimmed(content));
    if |t| <= MaxTitleLength then t else t[..MaxTitleLength]
  }

  // ----- the POST handler ----------------------------------------------------

  /** The one upstream request: fixed model, system prompt and token limit,
      and the rendered user prompt (the fixed temperature is left out). */
  datatype TitleCall = TitleCall(model: string, system: string, prompt: string, maxTokens: nat)

  datatype TitleResponse =
    | Invalid                           // 400 'Messages array is required'
    | Failed(status: nat, error: string) // the catch-all error response
    | Titled(title: string)

  datatype Handled = Handled(response: TitleResponse, calls: seq<TitleCall>)

  /** `request.json()` and its `messages` field: a body that does not parse
      throws with a message; None is a missing or non-array field. */
  datatype TitleBody = Malformed(error: string) | Parsed(messages: Option<seq<WireMessage>>)

  /** The catch block: `error.message || 'Failed to generate title'`. */
  function Fail(message: string): TitleResponse {
    Failed(500, if message == "" then "Failed to generate title" else message)
  }

  /** The handler; `reply` is the upstream response, read only when the
      request is sent. */
  function Post(body: TitleBody, reply: ChatRoute.Reply): Handled
  {
    match body
    case Malformed(e) => Handled(Fail(e), [])
    case Parsed(messages) =>
      if messages.None? || messages.value == [] then Handled(Invalid, [])
      else
        var calls := [TitleCall(TitleModel, SystemPrompt, Prompt(messages.value), MaxTokens)];
        if !ChatRoute.IsOk(reply) then Handled(Fail(ChatRoute.UpstreamError(reply)), calls)
        else match reply.payload
          case NotJson(e) => Handled(Fail(e), calls)
          case Json(c) => Handled(Titled(CleanTitle(c)), calls)
  }

  // ----- properties -------------------------------------------------------------

  /** A single message renders as its own line. */
  lemma TranscriptSingle(m: WireMessage)
    ensures Transcript([m]) == m.role + ": " + m.content
  {
  }

  /** The transcript of a conversation is the transcripts of its two parts
      with a blank line between: messages appear in order, each once. */
  lemma TranscriptAppend(a: seq<WireMessage>, b: seq<WireMessage>)
    requires a != [] && b != []
    ensures Transcript(a + b) == Transcript(a) + "\n\n" + Transcript(b)
  {
    assert Lines(a + b) == Lines(a) + Lines(b);
    JoinAppend(Lines(a), Lines(b), Separator);
  }

  /** A missing, non-array or empty `messages` is rejected with 400 and no
      upstream request; otherwise exactly one request is made, carrying the
      rendered prompt. */
  lemma PostValidates(messages: Option<seq<WireMessage>>, reply: ChatRoute.Reply)
    ensures var h := Post(Parsed(messages), reply);
            (h.response == Invalid <==> messages.None? || messages.value == []) &&
            (h.response == Invalid ==> h.calls == []) &&
            (h.response != Invalid ==>
               h.calls == [TitleCall("grok-4-fast", SystemPrompt, PromptHead + Transcript(messages.value) + "\n\nTitle:", 30)])
  {
  }

  /** A successful reply yields the cleaned title; a failed one a 500 that
      carries the upstream status and text. */
  lemma PostOutcome(messages: seq<WireMessage>, reply: ChatRoute.Reply)
    requires messages != []
    ensures var h := Post(Parsed(Some(messages)), reply);
            (ChatRoute.IsOk(reply) && reply.payload.Json? ==>
               h.response.Titled? && |h.response.title| <= 60 && h.response.title == CleanTitle(reply.payload.content)) &&
            (!ChatRoute.IsOk(reply) ==>
               h.response.Failed? && h.response.status == 500 && StartsWith(h.response.error, "API returned "))
  {
    if !ChatRoute.IsOk(reply) {
      var e := ChatRoute.UpstreamError(reply);
      StartsWithSpec(e, "API returned ");
      assert e[..|"API returned "|] == "API returned ";
    }
  }

  /** An absent content, or one that is only whitespace, gives "New Chat". */
  lemma FallbackTitle(content: Option<string>)
    requires content.None? || AllSpace(content.value)
    ensures CleanTitle(content) == "New Chat"
  {
    if content.Some? {
      TrimSpec(content.value);
    }
  }

  /** Stripping removes at most one character at each end, only a quote, and
      always a leading quote; everything between is kept as it was. */
  lemma StripQuotesSpec(s: string)
    ensures var r := StripQuotes(s);
            var lead := if |s| > 0 && IsQuote(s[0]) then 1 else 0;
            lead + |r| <= |s| <= lead + |r| + 1 &&
            r == s[lead..lead + |r|] &&
            (|s| == lead + |r| + 1 ==> IsQuote(s[|s| - 1])) &&
            (|r| > 0 && IsQuote(s[|s| - 1]) ==> |s| == lead + |r| + 1)
  {
  }

  /** A quoted text loses both quotes; a text without quotes at its ends is
      kept. */
  lemma StripQuotesCases(s: string)
    ensures |s| >= 2 && IsQuote(s[0]) && IsQuote(s[|s| - 1]) ==> StripQuotes(s) == s[1..|s| - 1]
    ensures (|s| == 0 || (!IsQuote(s[0]) && !IsQuote(s[|s| - 1]))) ==> StripQuotes(s) == s
  {
  }

  /** The title is the cleaned text cut to its first 60 characters: quotes
      are stripped after the trim and before the cut, so a leading quote
      does not take one of the 60 places. */
  lemma CleanTitleSpec(content: Option<string>)
    ensures var t := StripQuotes(Trimmed(content));
            var r := CleanTitle(content);
            |r| == (if |t| <= 60 then |t| else 60) && r == t[..|r|]
    ensures content.Some? && !AllSpace(content.value) ==> Trimmed(content) == Trim(content.value)
  {
    if content.Some? && !AllSpace(content.value) {
      TrimSpec(content.value);
    }
  }
}
