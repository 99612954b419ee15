/** The persisted conversation list of lib/storage.ts. The browser's local
    storage entry is one field holding what was last written under the key. */
module Storage {
  import opened Types

  /** The storage entry: never written (or empty), text that does not parse,
      or a list written by `saveConversations`. */
  datatype Blob = Absent | Unreadable | Saved(list: seq<Conversation>)

  /** getConversations: a missing or unreadable entry loads as no
      conversations. */
  function Loaded(b: Blob): (r: seq<Conversation>)
    ensures b.Saved? ==> r == b.list
    ensures !b.Saved? ==> r == []
  {
    match b
    case Saved(list) => list
    case _ => []
  }

  /** saveConversation on a loaded list: the entry with the id replaced in
      place when there is one, the conversation appended otherwise. */
  function Upserted(cs: seq<Conversation>, c: Conversation): seq<Conversation>
  {
    match IndexById(cs, c.id)
    case Some(i) => cs[i := c]
    case None => cs + [c]
  }

  class Store {
    var blob: Blob

    constructor(b: Blob)
      ensures blob == b
    {
      blob := b;
    }

    method GetConversations() returns (r: seq<Conversation>)
      ensures r == Loaded(blob)
    {
      match blob
      case Saved(list) => r := list;
      case _ => r := [];
    }

    method SaveConversations(cs: seq<Conversation>)
      modifies this
      ensures blob == Saved(cs)
    {
      blob := Saved(cs);
    }

    /** The first stored conversation with the id, or None. */
    method GetConversation(id: string) returns (r: Option<Conversation>)
      ensures r == FindById(Loaded(blob), id)
    {
      var cs := GetConversations();
      r := FindById(cs, id);
    }

    method SaveConversation(c: Conversation)
      modifies this
      ensures blob == Saved(Upserted(old(Loaded(blob)), c))
    {
      var cs := GetConversations();
      var index := IndexById(cs, c.id);
      if index.Some? {
        cs := cs[index.value := c];
      } else {
        cs := cs + [c];
      }
      SaveConversations(cs);
    }

    method DeleteConversation(id: string)
      modifies this
      ensures blob == Saved(RemoveById(old(Loaded(blob)), id))
    {
      var cs := GetConversations();
      var filtered := RemoveById(cs, id);
      SaveConversations(filtered);
    }
  }

  // ----- properties -------------------------------------------------------------

  /** Saving replaces exactly the entry at the first index carrying the id
      and leaves every other position alone; a new id is appended last. */
  lemma UpsertedShape(cs: seq<Conversation>, c: Conversation)
    ensures IndexById(cs, c.id).Some? ==>
              var i := IndexById(cs, c.id).value;
              |Upserted(cs, c)| == |cs| && Upserted(cs, c)[i] == c &&
              forall k :: 0 <= k < |cs| && k != i ==> Upserted(cs, c)[k] == cs[k]
    ensures IndexById(cs, c.id).None? ==>
              Upserted(cs, c) == cs + [c] && forall k :: 0 <= k < |cs| ==> cs[k].id != c.id
  {
  }

  /** Reading back a conversation just saved yields it. */
  lemma GetAfterSave(cs: seq<Conversation>, c: Conversation)
    ensures FindById(Upserted(cs, c), c.id) == Some(c)
  {
    var r := Upserted(cs, c);
    match IndexById(cs, c.id)
    case Some(i) =>
      FindByIdAt(r, c.id, i);
    case None =>
      FindByIdAt(r, c.id, |cs|);
  }

  /** Saving a conversation does not change what any other id reads. */
  lemma SaveKeepsOthers(cs: seq<Conversation>, c: Conversation, id: string)
    requires id != c.id
    ensures FindById(Upserted(cs, c), id) == FindById(cs, id)
  {
    var r := Upserted(cs, c);
    UpsertedShape(cs, c);
    SameIndex(cs, r, id);
    FindAtIndex(cs, id);
    FindAtIndex(r, id);
  }

  /** Saving the same conversation twice is like saving it once. */
  lemma SaveIdempotent(cs: seq<Conversation>, c: Conversation)
    ensures Upserted(Upserted(cs, c), c) == Upserted(cs, c)
  {
    var r := Upserted(cs, c);
    match IndexById(cs, c.id)
    case Some(i) =>
      IndexOfFirst(r, c.id, i);
    case None =>
      IndexOfFirst(r, c.id, |cs|);
  }

  /** After a delete the id reads as None. */
  lemma GetAfterDelete(cs: seq<Conversation>, id: string)
    ensures FindById(RemoveById(cs, id), id) == None
  {
  }

  /** After a delete every other id reads as before. */
  lemma GetOthersAfterDelete(cs: seq<Conversation>, id: string, other: string)
    requires other != id
    ensures FindById(RemoveById(cs, id), other) == FindById(cs, other)
  {
    KeepOthersFind(cs, id, other);
  }

  lemma {:induction false} KeepOthersFind(cs: seq<Conversation>, id: string, other: string)
    requires other != id
    ensures FindById(RemoveById(cs, id), other) == FindById(cs, other)
  {
    if cs != [] {
      KeepOthersFind(cs[1..], id, other);
      if cs[0].id != id {
        assert ([cs[0]] + RemoveById(cs[1..], id))[1..] == RemoveById(cs[1..], id);
      }
    }
  }

  lemma IndexOfFirst(cs: seq<Conversation>, id: string, i: nat)
    requires i < |cs| && cs[i].id == id
    requires forall k :: 0 <= k < i ==> cs[k].id != id
    ensures IndexById(cs, id) == Some(i)
  {
    var r := IndexById(cs, id);
    assert r.Some?;
    assert !(r.value < i) && !(i < r.value);
  }

  /** Replacing one entry with another of a different id keeps the first
      index of every id but those two. */
  lemma SameIndex(cs: seq<Conversation>, r: seq<Conversation>, id: string)
    requires |r| >= |cs|
    requires forall k :: 0 <= k < |cs| && cs[k].id == id ==> r[k] == cs[k]
    requires forall k :: 0 <= k < |cs| && r[k].id == id ==> r[k] == cs[k]
    requires forall k :: |cs| <= k < |r| ==> r[k].id != id
    ensures IndexById(cs, id).None? <==> IndexById(r, id).None?
    ensures IndexById(cs, id).Some? ==> IndexById(r, id) == IndexById(cs, id) &&
                                        r[IndexById(cs, id).value] == cs[IndexById(cs, id).value]
  {
    match IndexById(cs, id)
    case Some(i) =>
      IndexOfFirst(r, id, i);
    case None =>
      assert forall k :: 0 <= k < |r| ==> r[k].id != id;
  }
}
