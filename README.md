# Chat front-end: Dafny model

This project models the core of a Next.js chat application that talks to an
OpenAI-compatible completion service. It covers four parts:

- **Chat endpoint** (`app/api/chat/route.ts`): request validation and
  defaulting, the streaming request and its non-streaming fallback, and the
  relay loop. The relay line-buffers the upstream event stream and re-frames it
  as `data: {"content": …}` / `data: [DONE]` events.
- **Conversation engine** (`components/ChatInterface.tsx`): what send, edit
  and model change pass up to the page, the client-side read loop that
  accumulates deltas into snapshots of one assistant message, the title
  request and the error message.
- **Page and store** (`app/page.tsx`, `lib/storage.ts`): the conversation list
  with load-time model migration, pick of the most recent conversation,
  create, select, delete, and upsert with automatic titling. The list is
  written through to a local-storage blob; every write is taken to succeed
  (see "## Left out").
- **Title and catalog endpoints** (`app/api/generate-title/route.ts`,
  `app/api/models/route.ts`): prompt rendering and title cleanup, and the
  model filter with its description table.

The modules follow the source files: `Strings` (JavaScript string operations
used by the code), `Types` (`lib/types.ts`), `ChatRoute`, `ChatInterface`,
`Storage`, `Page`, `TitleRoute` and `ModelsRoute`.

The form follows the source, file by file:
- Code that works by mutation becomes imperative Dafny.
  - The relay loop is the method `ChatRoute.Reframe`.
  - The client read loop is the method `ChatInterface.ReadStream`, with its
    inner loops.
  - The page is the class `Page.Home`, and the store is the class
    `Storage.Store`.
  - Each loop is proved against a function of its inputs.
- Code made of expressions becomes functions with lemmas beside them.

JSON parsing and encoding are function-typed parameters:
- `ChatRoute.UpstreamJson` and `ChatInterface.Decoder` return `None` where
  `JSON.parse` or the property access after it throws.
- Network replies are values: `ChatRoute.Reply`, `ChatInterface.ChatFetch`,
  `ModelsRoute.ModelsReply`.
- `Date.now()` is a parameter: `now`, or a `clock` indexed by the number of
  the update within one exchange.
- Generated ids are parameters or, for a new conversation, `conv-<now>`.

Behaviour of the code worth noting:
- The chat endpoint accepts an empty `messages` array; only a missing or
  non-array field is rejected (`ChatRoute.PostValidates`). Only the title
  endpoint rejects an empty array.
- The server relay's output does not depend on chunk boundaries
  (`ChatRoute.Reframe`, `ChatRoute.CompleteLinesStep`). The client reader
  does depend on them: it splits each chunk on its own and keeps no buffer
  (`ChatInterface.ChunkingMatters`).
- An upstream `data: [DONE]` line is relayed as DONE and reading goes on. A
  final DONE follows at stream end, so a relayed stream can hold two DONE
  events (`ChatRoute.DoneLinePassesThrough`).
- A `data:` line is read for its delta content only. A bare JSON object line
  is read for its message content only. The code has no fallback from one
  field to the other within a line.

## Model

| member | source | states |
|---|---|---|
| Strings.TrimSpec | app/api/chat/route.ts:119 | `trim()` leaves the infix of the line with only whitespace around it, and is empty exactly when the line is all whitespace |
| Strings.StartsWithSpec | app/api/chat/route.ts:122 | `startsWith(p)` holds iff `p` fits and is the line's prefix |
| Strings.JoinSplit | app/api/chat/route.ts:115 | joining the pieces of `split('\n')` with newlines gives the text back |
| Strings.SplitNewlineFree | app/api/chat/route.ts:115 | a text without newline splits into itself alone |
| Strings.JoinAppend | app/api/generate-title/route.ts:20 | `join(sep)` of a concatenation is the two joins with `sep` between |
| Strings.Contains | app/api/models/route.ts:37 | `includes(sub)` holds iff `sub` occurs at some index |
| Strings.ToLower | app/api/models/route.ts:36 | `toLowerCase()` keeps the length and lowers each ASCII letter |
| Strings.NatToString | app/api/chat/route.ts:67 | the status is rendered as decimal digits without a leading zero, whose decimal value is the status |
| Strings.ConcatAllAppend | components/ChatInterface.tsx:277 | accumulating two runs of fragments is accumulating each in turn |
| Types.ToWire | components/ChatInterface.tsx:236-239 | the wire messages are the messages' roles and contents, in order, nothing else |
| Types.FindById | lib/storage.ts:30 | `find` by id returns the first conversation with the id, None iff there is none |
| Types.IndexById | lib/storage.ts:35 | `findIndex` by id returns the first index with the id, None (-1) iff there is none |
| Types.RemoveById | lib/storage.ts:48 | `filter(c => c.id !== id)` keeps exactly the conversations with another id |
| Types.RemoveByIdAppend | lib/storage.ts:48 | the filter distributes over concatenation, so survivors keep their order |
| Types.RemoveByIdAbsent | lib/storage.ts:48 | filtering out an id no conversation carries leaves the list as it is |
| Types.FindByIdAt | lib/storage.ts:30 | `find` returns the entry at the first index carrying the id |
| ChatRoute.ContentEvent | app/api/chat/route.ts:131-134 | a parsed content yields an event iff it is non-empty, and then exactly one Content event carrying it |
| ChatRoute.LineEvents | app/api/chat/route.ts:118-149 | one complete upstream line yields at most one event |
| ChatRoute.Reframe | app/api/chat/route.ts:104-157 | the relay loop's emitted events and error state equal `Relay` of the concatenated upstream text, whatever the chunk boundaries |
| ChatRoute.Relay | app/api/chat/route.ts:104-157 | the reference definition of the relay's output: the events of the upstream text's complete lines, then one DONE unless the read failed; `Reframe` is proved to produce it for every chunking, and `RelayEnd`, `TrailingPieceIgnored` and `SingleLineRelay` state its ends |
| ChatRoute.EmitLines | app/api/chat/route.ts:118-150 | one turn enqueues the events of its complete lines, in order, after those already emitted |
| ChatRoute.CompleteLinesStep | app/api/chat/route.ts:114-116 | the next buffer is the old leftover plus the chunk, and the complete lines of the whole text are those seen before followed by those this chunk completes |
| ChatRoute.CompleteLinesCover | app/api/chat/route.ts:115-116 | complete lines and leftover rebuild the text and hold no newline |
| ChatRoute.TrailingPieceIgnored | app/api/chat/route.ts:153 | text after the last newline is never parsed: adding it changes nothing |
| ChatRoute.EventsOfLinesAppend | app/api/chat/route.ts:118 | the events of two runs of lines are the events of each, in order |
| ChatRoute.RelayEnd | app/api/chat/route.ts:153-156 | a normally ended stream gets exactly one trailing DONE after all line events; a failed read gets none and errors the stream |
| ChatRoute.BlankLineSilent | app/api/chat/route.ts:119-120 | whitespace-only lines produce nothing |
| ChatRoute.SingleLineRelay | app/api/chat/route.ts:110-153 | a one-line stream relays that line's events followed by the final DONE |
| ChatRoute.DoneLinePassesThrough | app/api/chat/route.ts:119-127 | any line that trims to `data: [DONE]` is relayed as DONE and reading continues, so the output holds two DONE events |
| ChatRoute.DataLineEvents | app/api/chat/route.ts:122-137 | a `data:` line other than DONE emits a Content iff its delta content parses and is non-empty; otherwise nothing |
| ChatRoute.OtherLineEvents | app/api/chat/route.ts:138-149 | a bare `{` line emits one Content with its message content iff that content parses and is non-empty; any other line emits nothing |
| ChatRoute.SelectedModel | app/api/chat/route.ts:23 | the selected model is never empty; it is the requested one when given and non-empty, and `grok-4-fast` when missing or empty |
| ChatRoute.PostValidates | app/api/chat/route.ts:16-21 | a missing or non-array `messages` gives 400 with no upstream call, and only then; otherwise at least one call is made |
| ChatRoute.PostDefaults | app/api/chat/route.ts:14-62 | each upstream call carries the messages unchanged and the selected model (default `grok-4-fast`); only the first call may stream, and it streams only when asked (default false) |
| ChatRoute.PostFallback | app/api/chat/route.ts:46-93 | a second call is made iff the first reply is a 404 saying "Streaming not supported"; then the client gets one Content event with the full content and one DONE; any other failure is a 500 without retry |
| ChatRoute.PostRelays | app/api/chat/route.ts:98-167 | streaming success returns the relay of the upstream body |
| ChatRoute.Post | app/api/chat/route.ts:10-208 | the handler; its outcomes are stated by `PostValidates` (400 iff `messages` is missing or not an array), `PostDefaults` (model and stream defaults), `PostFallback` (the non-streaming retry) and `PostRelays` (a streaming success returns `Relay` of the body) |
| ChatRoute.Fail | app/api/chat/route.ts:194-206 | the catch block: a 500 carrying the error's message, or `Failed to process chat completion` when it is empty, with the selected model; `PostFallback` states when the handler ends here |
| ChatInterface.CurrentModel | components/ChatInterface.tsx:22 | the model sent is the conversation's, or `grok-4-fast` when it has none; never empty |
| ChatInterface.ChangeModel | components/ChatInterface.tsx:24-34 | the passed-up conversation differs only in model and update time; nothing without a conversation |
| ChatInterface.SendUpdate | components/ChatInterface.tsx:209-221 | the user message is appended after the old messages; nothing else changes but the update time |
| ChatInterface.MessageIndex | components/ChatInterface.tsx:40-41 | the first index with the id, None iff no message carries it |
| ChatInterface.EditUpdate | components/ChatInterface.tsx:36-57 | the list is cut after the edited message (i + 1 entries), whose content alone is replaced; None iff the id is absent |
| ChatInterface.LineDelta | components/ChatInterface.tsx:267-299 | one line adds at most one non-empty fragment |
| ChatInterface.ContentDelta | components/ChatInterface.tsx:276-277 | a parsed content is accumulated iff it is non-empty, and then as itself |
| ChatInterface.Deltas | components/ChatInterface.tsx:260-300 | the fragments the client accumulates, each chunk split on its own; stated by `DeltasAppend`, `SilentLines`, `ChunkingMatters` and `FramesReadBack` |
| ChatInterface.Snapshot | components/ChatInterface.tsx:280-294 | one streaming update; `SnapshotAt` and `SnapshotsReplace` state that it is the sent conversation with one assistant message added and a new update time, every other field kept |
| ChatInterface.Snapshots | components/ChatInterface.tsx:276-294 | one snapshot per accumulated fragment |
| ChatInterface.ReadStream | components/ChatInterface.tsx:257-301 | the read loop's final text is the concatenation of the stream's fragments, and the updates it passes up are exactly `Snapshots` of them |
| ChatInterface.ReadChunk | components/ChatInterface.tsx:261-300 | one turn of the read loop extends text and snapshots by that chunk's fragments |
| ChatInterface.ReadLines | components/ChatInterface.tsx:267-300 | the loop over one chunk's lines extends text and snapshots by that chunk's fragments |
| ChatInterface.ReadLine | components/ChatInterface.tsx:268-299 | one line extends text and snapshots by its fragment, if any |
| ChatInterface.SnapshotAt | components/ChatInterface.tsx:280-294 | the k-th snapshot holds the text of the first k + 1 fragments |
| ChatInterface.SnapshotsReplace | components/ChatInterface.tsx:277-294 | every snapshot is the sent conversation with only its messages and update time changed: the sent messages plus one assistant message with the fixed id, stamped `clock(k)`; each snapshot's text is the previous one plus the next fragment |
| ChatInterface.LastSnapshotComplete | components/ChatInterface.tsx:277-294 | the last snapshot holds the whole accumulated text |
| ChatInterface.CollectAppend | components/ChatInterface.tsx:260-266 | reading two runs of chunks is reading each in turn |
| ChatInterface.DeltasAppend | components/ChatInterface.tsx:260-266 | the fragments of the stream are those of each chunk, in order |
| ChatInterface.SilentLines | components/ChatInterface.tsx:268-298 | `data: [DONE]`, unprefixed lines and unparsable lines add nothing |
| ChatInterface.ChunkingMatters | components/ChatInterface.tsx:264-268 | a content line read whole yields its content, but the same text cut after `da` yields nothing |
| ChatInterface.FramesReadBack | components/ChatInterface.tsx:264-277 | when each relayed event arrives as its own chunk and the decoder inverts the relay's encoder, the client reads back exactly the relayed non-empty texts, in order |
| ChatInterface.ErrorText | components/ChatInterface.tsx:353 | the error message starts with `Error: ` |
| ChatInterface.OnFailure | components/ChatInterface.tsx:341-363 | an abort passes up nothing; another error passes up the sent conversation with only its messages and update time changed: the sent messages plus one assistant error message |
| ChatInterface.OnTitle | components/ChatInterface.tsx:311-335 | a titled update is passed up iff the title is still "New Chat", the turn has at least 2 messages and the title reply is usable; it is the sent conversation with only title, messages and update time changed, carrying the final messages and the title, or "New Chat" when empty |
| ChatInterface.TitleRequested | components/ChatInterface.tsx:311 | the title condition; `TitleRequestedOnDefault` states that after send or edit it holds iff the title is still "New Chat" |
| ChatInterface.Rejection | components/ChatInterface.tsx:246-255 | the exchange fails before reading iff fetch threw, the status is not ok (`Failed to get response`) or the body is null (`No response body`) |
| ChatInterface.RequestAccepted | components/ChatInterface.tsx:230-244 | the request from send or edit is always accepted by the chat endpoint and goes upstream streaming, with the conversation's model and the messages unchanged |
| ChatInterface.TitleRequestedOnDefault | components/ChatInterface.tsx:304-311 | after send or edit a title is requested iff the conversation is still called "New Chat" |
| ChatInterface.ClosedStreamWithoutTitle | components/ChatInterface.tsx:303-311 | a closed stream on a titled conversation passes up only the snapshots |
| ChatInterface.FailureEndsExchange | components/ChatInterface.tsx:341-363 | a read failure ends with the sent messages plus one error message, dropping partial text; an abort ends with the snapshots so far |
| ChatInterface.TitledUpdate | components/ChatInterface.tsx:326-334 | the titled update carries the final messages and the returned title, or "New Chat" when empty |
| ChatInterface.EditUnknownId | components/ChatInterface.tsx:40-41 | editing an absent id passes nothing up |
| ChatInterface.Exchange | components/ChatInterface.tsx:246-363 | every update of an exchange is the same conversation as the one sent (id, model, creation time) with the sent messages plus exactly one assistant message |
| ChatInterface.AfterRead | components/ChatInterface.tsx:260-363 | after the body is read: one snapshot per fragment, then at most one more update, each the same conversation with the sent messages plus one assistant message |
| ChatInterface.Later | components/ChatInterface.tsx:213-220 | the exchange's clock readings follow the one that stamped the first update: its k-th is the caller's (k + 1)-th |
| ChatInterface.Send | components/ChatInterface.tsx:206-363 | nothing without a conversation; otherwise first the conversation with the user message at `clock(0)`, then only updates of that same conversation, each the sent messages plus one assistant message |
| ChatInterface.Edit | components/ChatInterface.tsx:36-204 | something is passed up iff there is a conversation and a message with the id; first the cut list, then only updates of that same conversation, each the sent messages plus one assistant message |
| ChatInterface.FailureKeepsRequest | components/ChatInterface.tsx:350-363 | an error update is the same conversation with the sent messages plus one message starting with `Error: ` |
| ChatInterface.SnapshotsKeepRequest | components/ChatInterface.tsx:287-294 | every snapshot is the same conversation with the sent messages plus one assistant message |
| Storage.Loaded | lib/storage.ts:6-16 | a missing or unreadable entry loads as no conversations, a saved one as its list |
| Storage.Store.GetConversations | lib/storage.ts:6-16 | returns what the entry holds, or nothing |
| Storage.Store.SaveConversations | lib/storage.ts:18-26 | the entry then holds exactly the given list |
| Storage.Store.GetConversation | lib/storage.ts:28-31 | returns the first stored conversation with the id, or None |
| Storage.Store.SaveConversation | lib/storage.ts:33-44 | the entry then holds the loaded list with the conversation upserted |
| Storage.Store.DeleteConversation | lib/storage.ts:46-50 | the entry then holds the loaded list without the id |
| Storage.Upserted | lib/storage.ts:33-44 | the list `saveConversation` writes; stated by `UpsertedShape`, `GetAfterSave`, `SaveKeepsOthers` and `SaveIdempotent` |
| Storage.UpsertedShape | lib/storage.ts:35-41 | an existing id is replaced in place at its first index, all else kept; a new id is appended last |
| Storage.GetAfterSave | lib/storage.ts:33-44 | reading back a saved conversation yields it |
| Storage.SaveKeepsOthers | lib/storage.ts:33-44 | saving does not change what any other id reads |
| Storage.SaveIdempotent | lib/storage.ts:33-44 | saving the same conversation twice is saving it once |
| Storage.GetAfterDelete | lib/storage.ts:46-50 | after a delete the id reads None |
| Storage.GetOthersAfterDelete | lib/storage.ts:46-50 | after a delete every other id reads as before |
| Page.MigrateOne | app/page.tsx:18-21 | one conversation's migration; `MigrateSpec` states that only a missing model changes, to `grok-4-fast` |
| Page.NeedsResave | app/page.tsx:23-24 | the re-save test; `ResaveIffModelMissing` and `NoResaveNoChange` characterise it |
| Page.Migrate | app/page.tsx:18-21 | the migration maps every conversation in place, keeping the count |
| Page.MostRecentIndex | app/page.tsx:32-33 | the first conversation with the largest update time (the stable descending sort's head) |
| Page.MostRecentId | app/page.tsx:31-34 | the id of a most recent conversation, None iff the list is empty |
| Page.FirstUserMessage | app/page.tsx:79 | the first user message, None iff there is none |
| Page.TitleFrom | app/page.tsx:81 | the derived title is a prefix of at most 50 characters, or "New Chat"; never empty |
| Page.AutoTitle | app/page.tsx:77-83 | titling changes nothing but the title |
| Page.ReplaceById | app/page.tsx:85-87 | every entry with the id becomes the conversation, the others stay in place |
| Page.Upsert | app/page.tsx:85-92 | the list after an update; stated by `UpsertPresent`, `UpsertAbsent` and `UpsertFinds` |
| Page.Fresh | app/page.tsx:42-49 | the new conversation; `FreshSpec` states its fields |
| Page.Home.ActiveConversation | app/page.tsx:37 | the active conversation is the first with the active id, none without one |
| Page.Home.constructor | app/page.tsx:10-11 | the page starts with no conversations and none active |
| Page.Home.Load | app/page.tsx:13-35 | loads and migrates; rewrites the store iff the migration changed something; activates the most recent conversation when there is one; the list then matches the store, given that the write succeeds |
| Page.Home.NewConversation | app/page.tsx:39-55 | prepends a fresh conversation, activates it, and writes the list through |
| Page.Home.SelectConversation | app/page.tsx:57-59 | only the active id changes |
| Page.Home.DeleteConversation | app/page.tsx:61-74 | removes the id, writes through, and re-selects the most recent survivor (or none) only when the active one was deleted |
| Page.Home.UpdateConversation | app/page.tsx:76-96 | titles the caller's object, upserts it, and writes the list through; the active id is kept |
| Page.MigrateSpec | app/page.tsx:18-21 | migration keeps every field but the model, which becomes the default when missing; after it no model is missing, and it is idempotent |
| Page.ResaveIffModelMissing | app/page.tsx:23-26 | the store is rewritten exactly when some loaded conversation lacked a model |
| Page.NoResaveNoChange | app/page.tsx:23-26 | without a rewrite the migrated list is the loaded one |
| Page.AutoTitleSpec | app/page.tsx:77-83 | only a "New Chat" conversation with a user message is titled, with the first 50 characters of the first user message, or "New Chat" when that is empty |
| Page.AutoTitleIdempotent | app/page.tsx:77-83 | titling twice is titling once |
| Page.AliasedTitleHarmless | app/page.tsx:81 | the title written into the caller's object does not change how later snapshots built on it are titled |
| Page.FirstUserInPrefix | app/page.tsx:79 | the first user message of a list is kept by every extension of that list |
| Page.UpsertPresent | app/page.tsx:85-87 | an existing id is replaced at every position carrying it; the length is kept |
| Page.UpsertAbsent | app/page.tsx:89-92 | a new id is put first, ahead of the others in order |
| Page.UpsertFinds | app/page.tsx:85-92 | after an update the id reads as the new conversation |
| Page.FreshSpec | app/page.tsx:42-51 | a new conversation is first, "New Chat", empty, on `grok-4-fast`, created and updated now, with the others after it |
| Page.DeleteReselects | app/page.tsx:66-73 | after deleting the active conversation the new active id is a most recent survivor's, never the deleted id, and none iff nothing survives |
| TitleRoute.Lines | app/api/generate-title/route.ts:20 | each message renders as `role: content`, in order |
| TitleRoute.Prompt | app/api/generate-title/route.ts:17-22 | the fixed instruction, the transcript and `Title:`; the transcript is stated by `TranscriptSingle` and `TranscriptAppend`, and `PostValidates` states that it is what is sent |
| TitleRoute.TranscriptSingle | app/api/generate-title/route.ts:20 | a single message's transcript is its line |
| TitleRoute.TranscriptAppend | app/api/generate-title/route.ts:20 | the transcript of two parts is theirs joined by a blank line |
| TitleRoute.Trimmed | app/api/generate-title/route.ts:53 | the trimmed content or "New Chat"; never empty |
| TitleRoute.CleanTitle | app/api/generate-title/route.ts:54 | the title is at most 60 characters |
| TitleRoute.StripQuotes | app/api/generate-title/route.ts:54 | the quote-stripping regex; `StripQuotesSpec` and `StripQuotesCases` characterise it |
| TitleRoute.PostValidates | app/api/generate-title/route.ts:10-45 | a missing, non-array or empty list gives 400 with no call, and only then; otherwise one call with the fixed model, instruction and token limit and the rendered prompt |
| TitleRoute.PostOutcome | app/api/generate-title/route.ts:47-56 | an ok reply returns the cleaned title (at most 60 characters); a failed one a 500 starting `API returned ` |
| TitleRoute.Post | app/api/generate-title/route.ts:6-64 | the handler; stated by `PostValidates` (400 iff the list is missing, not an array or empty) and `PostOutcome` (the cleaned title, or a 500) |
| TitleRoute.FallbackTitle | app/api/generate-title/route.ts:53 | an absent or whitespace-only content gives "New Chat" |
| TitleRoute.StripQuotesSpec | app/api/generate-title/route.ts:54 | one leading quote is always removed and only a quote; at most one trailing quote; the middle is kept unchanged |
| TitleRoute.StripQuotesCases | app/api/generate-title/route.ts:54 | a quoted text loses both quotes; a text with no quote at either end is kept |
| TitleRoute.CleanTitleSpec | app/api/generate-title/route.ts:53-54 | the title is the first 60 characters of the stripped, trimmed content: stripping comes after the trim and before the cut |
| ModelsRoute.ModelDescription | app/api/models/route.ts:60-72 | the table entry of the lower-cased id, or "AI model"; never empty |
| ModelsRoute.Excluded | app/api/models/route.ts:36-37 | the exclusion test; `KeepChatMembers` and `CaseInsensitive` state it |
| ModelsRoute.Describe | app/api/models/route.ts:39-44 | one catalog entry; `DescribeSpec` states that name = id and the upstream description wins over the table |
| ModelsRoute.Catalog | app/api/models/route.ts:33-44 | the filtered, described list; stated by `CatalogEntries` |
| ModelsRoute.KeepChat | app/api/models/route.ts:33-38 | the filter never lengthens the list |
| ModelsRoute.DescribeAll | app/api/models/route.ts:39-44 | each kept entry is described, in order |
| ModelsRoute.KeepChatMembers | app/api/models/route.ts:34-38 | an entry is kept iff its lower-cased id mentions none of `embedding`, `dall-e`, `image` |
| ModelsRoute.KeepChatAppend | app/api/models/route.ts:34-38 | the filter distributes over concatenation, so upstream order is kept |
| ModelsRoute.CatalogEntries | app/api/models/route.ts:33-44 | a missing `data` lists nothing; every entry has name = id, a non-empty description and no excluded word |
| ModelsRoute.DescribeSpec | app/api/models/route.ts:43 | an upstream description wins over the table |
| ModelsRoute.CaseInsensitive | app/api/models/route.ts:36-71 | lookup and filter ignore ASCII case |
| ModelsRoute.KnownModel | app/api/models/route.ts:62-71 | `GROK-4` is described as `grok-4`; an unknown id as "AI model" |
| ModelsRoute.GetOutcome | app/api/models/route.ts:25-56 | a failed fetch is an error naming the status text; a body without `data` lists nothing; models are listed iff the fetch is ok and the body parses |
| ModelsRoute.Get | app/api/models/route.ts:16-57 | the handler; `GetOutcome` states its outcomes |

## Left out

- Network I/O, HTTP headers, the bearer token and its startup warning are left out. Replies are given as values.
- The upstream client library, which the catalog handler creates but never uses, is left out.
- Byte decoding (`TextDecoder`, UTF-8) is not modelled: chunks are already-decoded text. The client decodes each chunk without `stream: true`, so a multi-byte character cut by a chunk boundary can be garbled; that is not modelled.
- JSON parsing and serialisation are function-typed parameters. The relay's `JSON.stringify({content})` and the client's `JSON.parse(...).content` are related only by the hypotheses of `ChatInterface.FramesReadBack`.
- The stored blob holds the list itself, so the serialisation round trip is taken to be exact. A stored `null`, or JSON that is not an array, is not modelled.
- Characters are Dafny `char`, not UTF-16 code units, so `slice(0, 50)` and `slice(0, 60)` count characters.
- Strings.ToLower: only ASCII letters are lowered, where `toLowerCase` maps all of Unicode.
- ModelsRoute.ModelDescription: the table is a map of the seven known ids. A key inherited from `Object.prototype`, such as `constructor`, does not resolve to a function value as it would in JavaScript.
- ModelsRoute: every upstream entry is taken to carry a string id. A missing id passes the filter, and `getModelDescription` then throws when there is also no description; that path is not modelled.
- TitleRoute: a non-string `content` in the title reply, on which `trim` throws, is not modelled.
- Storage.Store.SaveConversations: the write is taken to succeed. `localStorage.setItem` can throw, for instance when the quota is exceeded or storage is disabled, and lib/storage.ts:21-25 swallows that error, leaving the previous entry in place. The model stores the list unconditionally. So the contracts of `Store.SaveConversation` and `Store.DeleteConversation`, and the `Synced()` that `Page.Home.Load`, `NewConversation`, `DeleteConversation` and `UpdateConversation` ensure, hold only when the write succeeds. After a failed write the page's list and what a reload would show differ; that is not modelled. The server-side early returns on `typeof window === 'undefined'` are not modelled either: the store is always the browser's.
- ChatRoute.Post, TitleRoute.Post and ModelsRoute.Get: an upstream `fetch` or `text()` that rejects is not modelled. Examples are app/api/chat/route.ts:30, 52 and 170, app/api/generate-title/route.ts:24 and app/api/models/route.ts:19. In the code it ends in the handler's catch block, with a 500 carrying the error's message or the handler's fallback text, which is what `Fail` builds. `ChatRoute.Reply` and `ModelsRoute.ModelsReply` have no case for it.
- ChatRoute.Fail: thrown errors are given status 500. The `error.status ||` part only matters for errors that carry a status, and none of the modelled paths does.
- The fixed `temperature: 0.7` of every upstream request is not part of the modelled calls.
- ChatRoute.Reframe: events the relay enqueues are modelled as its output. Backpressure and the consumer side of the `ReadableStream` are not.
- Abort and concurrency are left out. An abort is one kind of failure (`ChatInterface.Failure.Aborted`). The abort controller, the loading flag and overlapping sends are not modelled.
- Each page handler runs on the state it is called in. The page's handler closes over the conversation list of the render in which the exchange started. An exchange therefore rewrites that list and can undo a concurrent change to another conversation; that is not modelled.
- `Date.now()`: one update's fields that the code stamps with separate calls share one value. This covers the message timestamp and `updatedAt`, and a new conversation's `createdAt` and `updatedAt`. The reading for the final assistant message is also the one the titled or error update is stamped with. The update passed up before the request and the exchange's updates read distinct clock entries (`ChatInterface.Later`). No ordering between clock readings is required.
- ChatInterface.Send, ChatInterface.Edit, ChatInterface.Exchange and ChatInterface.AfterRead state the shape of what they pass up, not every update in full. The updates are stated in full by the lemmas on `AfterRead`, `Rejection`, `OnFailure` and `OnTitle`. The streaming lemmas are stated for arbitrary fragment lists `ds`, which includes the ones `Deltas` yields.
- ChatInterface.SnapshotsReplace and ChatInterface.OnFailure state the title of the conversation as ChatInterface passed it up. In the code, app/page.tsx:81 writes the derived title into that same object, and ChatInterface.tsx:288-289 and 357-358 spread it into the later snapshots and the error update. So in the program those carry the derived title of a new conversation's first exchange. The model keeps values and no aliasing. `Page.AliasedTitleHarmless` proves that the page stores the same list either way, because `AutoTitle` derives the same title again from the same first user message.
- `handleEditMessage` repeats the request and read loop of `handleSend`. The model shares one `Exchange` for both; the cited lines are those of `handleSend`.
- The React rendering is left out: the header, Sidebar, MessageList and MessageInput components.
- ModelSelector is left out. It picks the first listed model when the current one is not listed; that rule is tied to its mount-time fetch.
- Console logging is not modelled.
