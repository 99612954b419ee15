/** The records of lib/types.ts, and the lookups by id that the page and the
    persisted store share. */
module Types {
  import opened Strings

  datatype Option<T> = None | Some(value: T)

  /** `'user' | 'assistant'`. */
  datatype Role = User | Assistant

  function RoleName(r: Role): string {
    match r
    case User => "user"
    case Assistant => "assistant"
  }

  /** A chat message; ids are opaque strings, timestamps epoch milliseconds. */
  datatype Message = Message(id: string, role: Role, content: string, timestamp: int)

  /** A conversation. `model == ""` stands for a record persisted before the
      model field existed: the code treats a missing and an empty model alike. */
  datatype Conversation = Conversation(
    id: string,
    title: string,
    messages: seq<Message>,
    model: string,
    createdAt: int,
    updatedAt: int)

  /** An entry of the model catalog. */
  datatype ModelInfo = ModelInfo(id: string, name: string, description: string)

  /** `{role, content}` as sent over the wire. */
  datatype WireMessage = WireMessage(role: string, content: string)

  /** The fallback model identifier used throughout the application. */
  const DefaultModel: string := "grok-4-fast"

  /** The placeholder title of a conversation that has not been titled yet. */
  const DefaultTitle: string := "New Chat"

  /** The line format of the event streams the chat endpoint reads and
      writes: an event line starts with `data: `, and `[DONE]` ends a stream. */
  const DataPrefix: string := "data: "
  const DoneMarker: string := "[DONE]"

  /** `messages.map(m => ({role: m.role, content: m.content}))`. */
  function ToWire(ms: seq<Message>): (r: seq<WireMessage>)
    ensures |r| == |ms|
    ensures forall k :: 0 <= k < |ms| ==> r[k] == WireMessage(RoleName(ms[k].role), ms[k].content)
  {
    if ms == [] then [] else [WireMessage(RoleName(ms[0].role), ms[0].content)] + ToWire(ms[1..])
  }

  /** `list.find(c => c.id === id)`: the first conversation carrying the id. */
  function FindById(cs: seq<Conversation>, id: string): (r: Option<Conversation>)
    ensures r.None? <==> forall k :: 0 <= k < |cs| ==> cs[k].id != id
    ensures r.Some? ==> exists k :: 0 <= k < |cs| && cs[k] == r.value && r.value.id == id &&
                                    forall j :: 0 <= j < k ==> cs[j].id != id
  {
    if cs == [] then None
    else if cs[0].id == id then Some(cs[0])
    else
      var r := FindById(cs[1..], id);
      assert forall k :: 1 <= k < |cs| ==> cs[k] == cs[1..][k - 1];
      r
  }

  /** If no entry before `i` carries the id and entry `i` does, `find`
      returns entry `i`. */
  lemma {:induction false} FindByIdAt(cs: seq<Conversation>, id: string, i: nat)
    requires i < |cs| && cs[i].id == id
    requires forall k :: 0 <= k < i ==> cs[k].id != id
    ensures FindById(cs, id) == Some(cs[i])
  {
    if i > 0 {
      FindByIdAt(cs[1..], id, i - 1);
    }
  }

  /** `list.findIndex(c => c.id === id)`, with -1 as None. */
  function IndexById(cs: seq<Conversation>, id: string): (r: Option<nat>)
    ensures r.None? <==> forall k :: 0 <= k < |cs| ==> cs[k].id != id
    ensures r.Some? ==> r.value < |cs| && cs[r.value].id == id &&
                        forall j :: 0 <= j < r.value ==> cs[j].id != id
  {
    if cs == [] then None
    else if cs[0].id == id then Some(0)
    else
      match IndexById(cs[1..], id)
      case None => None
      case Some(k) => Some(k + 1)
  }

  /** The index lookup and the element lookup agree. */
  lemma FindAtIndex(cs: seq<Conversation>, id: string)
    ensures IndexById(cs, id).None? ==> FindById(cs, id) == None
    ensures IndexById(cs, id).Some? ==> FindById(cs, id) == Some(cs[IndexById(cs, id).value])
  {
    match IndexById(cs, id)
    case None =>
    case Some(i) =>
      var r := FindById(cs, id);
      var k :| 0 <= k < |cs| && cs[k] == r.value && r.value.id == id &&
               forall j :: 0 <= j < k ==> cs[j].id != id;
      assert !(k < i) && !(i < k);
  }

  /** `list.filter(c => c.id !== id)`. */
  function RemoveById(cs: seq<Conversation>, id: string): (r: seq<Conversation>)
    ensures |r| <= |cs|
    ensures forall k :: 0 <= k < |r| ==> r[k].id != id
    ensures forall c :: c in cs && c.id != id ==> c in r
    ensures forall c :: c in r ==> c in cs
  {
    if cs == [] then []
    else if cs[0].id == id then RemoveById(cs[1..], id)
    else [cs[0]] + RemoveById(cs[1..], id)
  }

  /** Removal keeps the survivors in order: it distributes over concatenation. */
  lemma {:induction false} RemoveByIdAppend(a: seq<Conversation>, b: seq<Conversation>, id: string)
    ensures RemoveById(a + b, id) == RemoveById(a, id) + RemoveById(b, id)
  {
    if a != [] {
      assert (a + b)[1..] == a[1..] + b;
      RemoveByIdAppend(a[1..], b, id);
    } else {
      assert a + b == b;
    }
  }

  /** A list with no entry of that id is left as it is. */
  lemma {:induction false} RemoveByIdAbsent(cs: seq<Conversation>, id: string)
    requires forall k :: 0 <= k < |cs| ==> cs[k].id != id
    ensures RemoveById(cs, id) == cs
  {
    if cs != [] {
      RemoveByIdAbsent(cs[1..], id);
    }
  }
}
