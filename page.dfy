/** The conversation list of app/page.tsx: loading with the model
    migration, the pick of the most recent conversation, creating, deleting
    and updating conversations, each written through to the store. */
module Page {
  import opened Types
  import Storage
  import opened Strings

  // ----- loading ---------------------------------------------------------------

  /** `{...conv, model: conv.model || 'grok-4-fast'}`. */
  function MigrateOne(c: Conversation): Conversation
  {
    c.(model := if c.model == "" then DefaultModel else c.model)
  }

  /** The migration of the load effect, applied to every loaded conversation. */
  function Migrate(cs: seq<Conversation>): (r: seq<Conversation>)
    ensures |r| == |cs|
    ensures forall k :: 0 <= k < |cs| ==> r[k] == MigrateOne(cs[k])
  {
    if cs == [] then [] else [MigrateOne(cs[0])] + Migrate(cs[1..])
  }

  /** The re-save test: the lengths differ or some model changed. */
  predicate NeedsResave(loaded: seq<Conversation>, migrated: seq<Conversation>) {
    |migrated| != |loaded| || exists k :: 0 <= k < |migrated| && k < |loaded| && migrated[k].model != loaded[k].model
  }

  /** The index `sort((a, b) => b.updatedAt - a.updatedAt)[0]` comes from: the
      sort is stable, so it is the first conversation with the largest
      update time. */
  function MostRecentIndex(cs: seq<Conversation>): (i: nat)
    requires cs != []
    ensures i < |cs|
    ensures forall k :: 0 <= k < |cs| ==> cs[k].updatedAt <= cs[i].updatedAt
    ensures forall k :: 0 <= k < i ==> cs[k].updatedAt < cs[i].updatedAt
  {
    if |cs| == 1 then 0
    else
      var j := MostRecentIndex(cs[..|cs| - 1]);
      if cs[|cs| - 1].updatedAt > cs[j].updatedAt then |cs| - 1 else j
  }

  /** The id made active after loading or after deleting the active one:
      that of the most recent conversation, none when the list is empty. */
  function MostRecentId(cs: seq<Conversation>): (r: Option<string>)
    ensures r.None? <==> cs == []
    ensures r.Some? ==> exists i :: 0 <= i < |cs| && cs[i].id == r.value &&
                          forall k :: 0 <= k < |cs| ==> cs[k].updatedAt <= cs[i].updatedAt
  {
    if cs == [] then None else Some(cs[MostRecentIndex(cs)].id)
  }

  // ----- updating --------------------------------------------------------------

  /** `messages.find(m => m.role === 'user')`. */
  function FirstUserMessage(ms: seq<Message>): (r: Option<Message>)
    ensures r.None? <==> forall k :: 0 <= k < |ms| ==> ms[k].role != User
    ensures r.Some? ==> exists i :: 0 <= i < |ms| && ms[i] == r.value && r.value.role == User &&
                                    forall k :: 0 <= k < i ==> ms[k].role != User
  {
    if ms == [] then None
    else if ms[0].role == User then Some(ms[0])
    else
      var r := FirstUserMessage(ms[1..]);
      assert forall k :: 1 <= k < |ms| ==> ms[k] == ms[1..][k - 1];
      r
  }

  const TitleLength: nat := 50

  /** `content.slice(0, 50) || 'New Chat'`. */
  function TitleFrom(content: string): (t: string)
    ensures t != ""
    ensures t == DefaultTitle || (|t| <= TitleLength && |t| <= |content| && t == content[..|t|])
  {
    var s := if |content| <= TitleLength then content else content[..TitleLength];
    if s == "" then DefaultTitle else s
  }

  /** The title assignment of handleUpdateConversation: a conversation still
      called "New Chat" that has messages takes its title from its first
      user message. */
  function AutoTitle(c: Conversation): (r: Conversation)
    ensures r.(title := c.title) == c
  {
    if c.title == DefaultTitle && |c.messages| > 0 then
      match FirstUserMessage(c.messages)
      case Some(m) => c.(title := TitleFrom(m.content))
      case None => c
    else c
  }

  /** `conversations.map(c => c.id === conversation.id ? conversation : c)`. */
  function ReplaceById(cs: seq<Conversation>, c: Conversation): (r: seq<Conversation>)
    ensures |r| == |cs|
    ensures forall k :: 0 <= k < |cs| ==> r[k] == if cs[k].id == c.id then c else cs[k]
  {
    if cs == [] then [] else [if cs[0].id == c.id then c else cs[0]] + ReplaceById(cs[1..], c)
  }

  /** The list after handleUpdateConversation: every entry with the id
      replaced, or the conversation put first when no entry has the id. */
  function Upsert(cs: seq<Conversation>, c: Conversation): seq<Conversation>
  {
    if FindById(cs, c.id).None? then [c] + ReplaceById(cs, c) else ReplaceById(cs, c)
  }

  /** A conversation just created by handleNewConversation at time `now`,
      with the id `conv-<now>`. */
  function Fresh(now: nat): Conversation
  {
    Conversation("conv-" + NatToString(now), DefaultTitle, [], DefaultModel, now, now)
  }

  // ----- the page state -----------------------------------------------------------

  class Home {
    var conversations: seq<Conversation>
    var activeId: Option<string>
    const store: Storage.Store

    /** The list shown is the list the store would load: every handler
        writes through. */
    predicate Synced()
      reads this, store
    {
      Storage.Loaded(store.blob) == conversations
    }

    /** `conversations.find(c => c.id === activeConversationId) || null`. */
    function ActiveConversation(): (r: Option<Conversation>)
      reads this
      ensures activeId.None? ==> r.None?
      ensures activeId.Some? ==> r == FindById(conversations, activeId.value)
    {
      match activeId
      case None => None
      case Some(id) => FindById(conversations, id)
    }

    constructor(store: Storage.Store)
      ensures conversations == [] && activeId == None && this.store == store
    {
      conversations := [];
      activeId := None;
      this.store := store;
    }

    /** The mount effect: load, migrate, re-save when the migration changed
        something, and make the most recent conversation active. */
    method Load()
      modifies this, store
      ensures conversations == Migrate(old(Storage.Loaded(store.blob)))
      ensures NeedsResave(old(Storage.Loaded(store.blob)), conversations) ==> store.blob == Storage.Saved(conversations)
      ensures !NeedsResave(old(Storage.Loaded(store.blob)), conversations) ==> store.blob == old(store.blob)
      ensures conversations != [] ==> activeId == MostRecentId(conversations)
      ensures conversations == [] ==> activeId == old(activeId)
      ensures Synced()
    {
      var loaded := store.GetConversations();
      var migrated := Migrate(loaded);
      if NeedsResave(loaded, migrated) {
        store.SaveConversations(migrated);
      } else {
        NoResaveNoChange(loaded);
      }
      conversations := migrated;
      if |migrated| > 0 {
        activeId := MostRecentId(migrated);
      }
    }

    method NewConversation(now: nat)
      modifies this, store
      ensures conversations == [Fresh(now)] + old(conversations)
      ensures activeId == Some(Fresh(now).id)
      ensures Synced()
    {
      var created := Fresh(now);
      var updated := [created] + conversations;
      conversations := updated;
      activeId := Some(created.id);
      store.SaveConversations(updated);
    }

    method SelectConversation(id: string)
      modifies this
      ensures activeId == Some(id) && conversations == old(conversations)
    {
      activeId := Some(id);
    }

    method DeleteConversation(id: string)
      modifies this, store
      ensures conversations == RemoveById(old(conversations), id)
      ensures old(activeId) == Some(id) ==> activeId == MostRecentId(conversations)
      ensures old(activeId) != Some(id) ==> activeId == old(activeId)
      ensures Synced()
    {
      var updated := RemoveById(conversations, id);
      conversations := updated;
      store.SaveConversations(updated);
      if activeId == Some(id) {
        if |updated| > 0 {
          activeId := MostRecentId(updated);
        } else {
          activeId := None;
        }
      }
    }

    /** handleUpdateConversation. The title is assigned into the object the
        caller passed; `titled` is that object afterwards. */
    method UpdateConversation(conversation: Conversation) returns (titled: Conversation)
      modifies this, store
      ensures titled == AutoTitle(conversation)
      ensures conversations == Upsert(old(conversations), titled)
      ensures activeId == old(activeId)
      ensures Synced()
    {
      titled := conversation;
      if titled.title == DefaultTitle && |titled.messages| > 0 {
        var first := FirstUserMessage(titled.messages);
        if first.Some? {
          titled := titled.(title := TitleFrom(first.value.content));
        }
      }
      var updated := ReplaceById(conversations, titled);
      if FindById(conversations, titled.id).None? {
        updated := [titled] + updated;
      }
      conversations := updated;
      store.SaveConversations(updated);
    }
  }

  // ----- properties -------------------------------------------------------------

  /** The migration keeps count, order and every field but the model, which
      is the stored one or the default; it leaves nothing to migrate. */
  lemma MigrateSpec(cs: seq<Conversation>)
    ensures forall k :: 0 <= k < |cs| ==>
              Migrate(cs)[k].(model := cs[k].model) == cs[k] &&
              Migrate(cs)[k].model == (if cs[k].model == "" then DefaultModel else cs[k].model)
    ensures forall k :: 0 <= k < |cs| ==> Migrate(cs)[k].model != ""
    ensures Migrate(Migrate(cs)) == Migrate(cs)
  {
    var m := Migrate(cs);
    assert forall k :: 0 <= k < |m| ==> MigrateOne(m[k]) == m[k];
  }

  /** The store is rewritten exactly when some loaded conversation had no
      model. */
  lemma ResaveIffModelMissing(cs: seq<Conversation>)
    ensures NeedsResave(cs, Migrate(cs)) <==> exists k :: 0 <= k < |cs| && cs[k].model == ""
  {
    var m := Migrate(cs);
    if exists k :: 0 <= k < |cs| && cs[k].model == "" {
      var k :| 0 <= k < |cs| && cs[k].model == "";
      assert m[k].model != cs[k].model;
    }
  }

  /** Without a re-save, the migrated list is the loaded one. */
  lemma NoResaveNoChange(cs: seq<Conversation>)
    requires !NeedsResave(cs, Migrate(cs))
    ensures Migrate(cs) == cs
  {
    var m := Migrate(cs);
    forall k | 0 <= k < |cs|
      ensures m[k] == cs[k]
    {
      assert m[k].model == cs[k].model;
    }
  }

  /** A title is derived only for a conversation still called "New Chat"
      that has a user message; it is a prefix of at most 50 characters of the
      first user message, or "New Chat" when that message is empty. */
  lemma AutoTitleSpec(c: Conversation)
    ensures c.title != DefaultTitle ==> AutoTitle(c) == c
    ensures (forall k :: 0 <= k < |c.messages| ==> c.messages[k].role != User) ==> AutoTitle(c) == c
    ensures c.title == DefaultTitle && FirstUserMessage(c.messages).Some? ==>
              var content := FirstUserMessage(c.messages).value.content;
              AutoTitle(c).title == (if content == "" then DefaultTitle
                                     else content[..if |content| <= TitleLength then |content| else TitleLength])
  {
    if c.title == DefaultTitle && FirstUserMessage(c.messages).Some? {
      assert |c.messages| > 0;
      var content := FirstUserMessage(c.messages).value.content;
      assert content[..|content|] == content;
    }
  }

  /** Titling twice is titling once. */
  lemma AutoTitleIdempotent(c: Conversation)
    ensures AutoTitle(AutoTitle(c)) == AutoTitle(c)
  {
  }

  /** The title assignment mutates the caller's object, which the chat
      interface then spreads into its later snapshots. That is harmless:
      a later snapshot that extends the titled messages gets the same title
      whether it starts from the titled object or from the original one. */
  lemma AliasedTitleHarmless(u: Conversation, x: Conversation)
    requires x.title == u.title && |u.messages| <= |x.messages| && x.messages[..|u.messages|] == u.messages
    requires FirstUserMessage(u.messages).Some?
    ensures AutoTitle(x.(title := AutoTitle(u).title)) == AutoTitle(x)
  {
    FirstUserInPrefix(u.messages, x.messages);
  }

  lemma {:induction false} FirstUserInPrefix(a: seq<Message>, b: seq<Message>)
    requires |a| <= |b| && b[..|a|] == a
    requires FirstUserMessage(a).Some?
    ensures FirstUserMessage(b) == FirstUserMessage(a)
  {
    assert a != [];
    assert b[0] == a[0];
    if a[0].role != User {
      assert b[1..][..|a[1..]|] == a[1..];
      FirstUserInPrefix(a[1..], b[1..]);
    }
  }

  /** Updating with an id already listed replaces every entry with that id
      in place and leaves the others alone. */
  lemma UpsertPresent(cs: seq<Conversation>, c: Conversation)
    requires FindById(cs, c.id).Some?
    ensures |Upsert(cs, c)| == |cs|
    ensures forall k :: 0 <= k < |cs| ==> Upsert(cs, c)[k] == if cs[k].id == c.id then c else cs[k]
  {
  }

  /** Updating with a new id puts the conversation first, ahead of the
      others in their order. */
  lemma UpsertAbsent(cs: seq<Conversation>, c: Conversation)
    requires FindById(cs, c.id).None?
    ensures Upsert(cs, c) == [c] + cs
  {
    assert ReplaceById(cs, c) == cs;
  }

  /** Either way the id then reads as the new conversation. */
  lemma UpsertFinds(cs: seq<Conversation>, c: Conversation)
    ensures FindById(Upsert(cs, c), c.id) == Some(c)
  {
    if FindById(cs, c.id).Some? {
      var k :| 0 <= k < |cs| && cs[k] == FindById(cs, c.id).value && cs[k].id == c.id &&
               forall j :: 0 <= j < k ==> cs[j].id != c.id;
      FindByIdAt(Upsert(cs, c), c.id, k);
    }
  }

  /** A new conversation is put first, untitled, empty and on the default
      model, ahead of the others in their order. */
  lemma FreshSpec(cs: seq<Conversation>, now: nat)
    ensures var r := [Fresh(now)] + cs;
            r[0].title == "New Chat" && r[0].messages == [] && r[0].model == "grok-4-fast" &&
            r[0].createdAt == now && r[0].updatedAt == now && r[1..] == cs
  {
  }

  /** After deleting the active conversation, the active id is that of a
      most recent survivor, never the deleted one, and there is none exactly
      when nothing survives. */
  lemma DeleteReselects(cs: seq<Conversation>, id: string)
    ensures var r := RemoveById(cs, id);
            (MostRecentId(r).None? <==> forall k :: 0 <= k < |cs| ==> cs[k].id == id) &&
            (MostRecentId(r).Some? ==>
               MostRecentId(r).value != id &&
               exists s :: s in cs && s.id == MostRecentId(r).value &&
                           forall c :: c in cs && c.id != id ==> c.updatedAt <= s.updatedAt)
  {
    var r := RemoveById(cs, id);
    if r != [] {
      var i := MostRecentIndex(r);
      assert r[i] in r;
      forall c | c in cs && c.id != id
        ensures c.updatedAt <= r[i].updatedAt
      {
        var k :| 0 <= k < |r| && r[k] == c;
      }
    } else {
      forall k | 0 <= k < |cs|
        ensures cs[k].id == id
      {
        assert cs[k] in cs;
      }
    }
  }
}
