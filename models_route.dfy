/** The model catalog of app/api/models/route.ts: the upstream model list
    filtered to chat models and given a description each. */
module ModelsRoute {
  import opened Types
  import opened Strings

  /** An entry of the upstream `data` array; an absent description is "". */
  datatype UpstreamModel = UpstreamModel(id: string, description: string)

  /** The upstream body: `response.json()` throws with a message, or yields
      an object whose `data` field may be missing. */
  datatype Listing = NotJson(error: string) | Json(data: Option<seq<UpstreamModel>>)

  datatype ModelsReply = ModelsReply(ok: bool, statusText: string, listing: Listing)

  datatype ModelsResponse =
    | Listed(models: seq<ModelInfo>)
    | Failed(error: string) // status 500, with `models: []`

  // ----- the description table ---------------------------------------------------

  const Fallback: string := "AI model"

  /** The known models, keyed by lower-case id. */
  const Descriptions: map<string, string> := map[
    "grok-4-fast" := "Fast response, good for quick queries",
    "grok-4" := "Higher quality, better reasoning",
    "deepseek" := "Fast and cost-effective chat completions",
    "supermind-agent-v1" := "Multi-tool agent with web search and Gemini handoff",
    "gemini-2.5-pro" := "Direct access to Google's Gemini model",
    "gemini-3-flash-preview" := "Fast Gemini reasoning model",
    "gpt-5" := "Passthrough to OpenAI-compatible providers"
  ]

  /** getModelDescription: the table entry for the lower-cased id, or
      "AI model". */
  function ModelDescription(id: string): (r: string)
    ensures r != ""
    ensures ToLower(id) in Descriptions ==> r == Descriptions[ToLower(id)]
    ensures ToLower(id) !in Descriptions ==> r == Fallback
  {
    var key := ToLower(id);
    if key in Descriptions && Descriptions[key] != "" then Descriptions[key] else Fallback
  }

  // ----- filter and map ----------------------------------------------------

  /** The ids the catalog leaves out: embedding and image models. */
  predicate Excluded(id: string) {
    var lower := ToLower(id);
    Contains(lower, "embedding") || Contains(lower, "dall-e") || Contains(lower, "image")
  }

  function KeepChat(ms: seq<UpstreamModel>): (r: seq<UpstreamModel>)
    ensures |r| <= |ms|
  {
    if ms == [] then []
    else if Excluded(ms[0].id) then KeepChat(ms[1..])
    else [ms[0]] + KeepChat(ms[1..])
  }

  /** `{id, name: id, description: description || getModelDescription(id)}`. */
  function Describe(m: UpstreamModel): ModelInfo {
    ModelInfo(m.id, m.id, if m.description != "" then m.description else ModelDescription(m.id))
  }

  function DescribeAll(ms: seq<UpstreamModel>): (r: seq<ModelInfo>)
    ensures |r| == |ms|
    ensures forall k :: 0 <= k < |ms| ==> r[k] == Describe(ms[k])
  {
    if ms == [] then [] else [Describe(ms[0])] + DescribeAll(ms[1..])
  }

  function Catalog(data: Option<seq<UpstreamModel>>): seq<ModelInfo> {
    match data
    case Some(ms) => DescribeAll(KeepChat(ms))
    case None => []
  }

  /** The GET handler. */
  function Get(reply: ModelsReply): ModelsResponse {
    if !reply.ok then Failed("Failed to fetch models: " + reply.statusText)
    else match reply.listing
      case NotJson(e) => Failed(if e == "" then "Failed to fetch models" else e)
      case Json(data) => Listed(Catalog(data))
  }

  // ----- properties -------------------------------------------------------------

  /** The filter keeps exactly the chat models: an entry is kept iff its id
      mentions none of the excluded words, ignoring case. */
  lemma {:induction false} KeepChatMembers(ms: seq<UpstreamModel>)
    ensures forall m :: m in KeepChat(ms) <==> m in ms && !Excluded(m.id)
  {
    if ms != [] {
      KeepChatMembers(ms[1..]);
      assert ms == [ms[0]] + ms[1..];
    }
  }

  /** The filter distributes over concatenation, so kept entries stay in
      upstream order. */
  lemma {:induction false} KeepChatAppend(a: seq<UpstreamModel>, b: seq<UpstreamModel>)
    ensures KeepChat(a + b) == KeepChat(a) + KeepChat(b)
  {
    if a == [] {
      assert a + b == b;
    } else {
      assert (a + b)[0] == a[0] && (a + b)[1..] == a[1..] + b;
      KeepChatAppend(a[1..], b);
    }
  }

  /** Every catalog entry is named by its id, carries a description, and
      does not mention an excluded word. */
  lemma CatalogEntries(data: Option<seq<UpstreamModel>>)
    ensures data.None? ==> Catalog(data) == []
    ensures forall e :: e in Catalog(data) ==>
              e.name == e.id && e.description != "" && !Excluded(e.id)
  {
    if data.Some? {
      KeepChatMembers(data.value);
      var kept := KeepChat(data.value);
      forall e | e in Catalog(data)
        ensures e.name == e.id && e.description != "" && !Excluded(e.id)
      {
        var k :| 0 <= k < |kept| && Catalog(data)[k] == e;
        assert kept[k] in kept;
      }
    }
  }

  /** An upstream description wins over the table. */
  lemma DescribeSpec(m: UpstreamModel)
    ensures m.description != "" ==> Describe(m).description == m.description
    ensures m.description == "" ==> Describe(m).description == ModelDescription(m.id)
  {
  }

  lemma ToLowerIdempotent(s: string)
    ensures ToLower(ToLower(s)) == ToLower(s)
  {
  }

  /** The table lookup and the filter ignore case. */
  lemma CaseInsensitive(id: string)
    ensures ModelDescription(ToLower(id)) == ModelDescription(id)
    ensures Excluded(ToLower(id)) == Excluded(id)
  {
    ToLowerIdempotent(id);
  }

  /** For instance, "GROK-4" is described as "grok-4" is. */
  lemma KnownModel()
    ensures ModelDescription("GROK-4") == "Higher quality, better reasoning"
    ensures ModelDescription("grok-3") == "AI model"
  {
    assert ToLower("GROK-4") == "grok-4";
    assert ToLower("grok-3") == "grok-3";
  }

  /** A failed fetch reports the status text and lists no models; a body
      without `data` lists none either. */
  lemma GetOutcome(reply: ModelsReply)
    ensures !reply.ok ==> Get(reply) == Failed("Failed to fetch models: " + reply.statusText)
    ensures reply.ok && reply.listing == Json(None) ==> Get(reply) == Listed([])
    ensures Get(reply).Listed? <==> reply.ok && reply.listing.Json?
  {
  }
}
