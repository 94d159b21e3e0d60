# psky relay: a verified model of the materialised store and the subscriber hub

The relay follows the `social.psky.*` collections on the upstream Jetstream feed. It materialises them into three SQLite tables (`users`, `rooms`, `messages`) and rebroadcasts each change as a JSON envelope to websocket subscribers. This project models in Dafny the decisions that pipeline makes:

- **Schema and store.** The schema of migration `001` becomes maps keyed by primary key, with the NOT NULL, default and foreign-key rules as invariants. The ON DELETE CASCADE rules are explicit deletions (`Schema`). The per-entity get/add/update/delete operations of `src/db/user.ts`, `src/db/room.ts` and `src/db/message.ts` are methods of the class `Database.Store`. The store holds the tables as fields and each method states its complete new state. The validators and the rows written are pure functions (`Users`, `Rooms`, `Messages`).
- **Event handlers.** The handlers of `src/relay.ts` are methods taking the store, the hub and one event of the tagged union `Envelopes.Event` (`Relay`). The account-lifecycle decision and the identity handle rule are stated as small state machines.
- **Subscriber hub.** The hub of `src/routes.ts` is the class `Subscriptions.Hub`. It holds the `ipSet` session counter, the "message" stream, every socket opened and the listener count. What each socket receives is a function of the stream and its room filter.
- **`getMessages`.** The listing is a pure filter, sort, window and map (`Listing`).
- **Query and facet shapes.** The shapes of `src/lib/schemas.ts` are predicates over a JSON datatype (`QuerySchemas`).
- **Resolver choices.** The URL and handle choices inside `resolveDid` (`src/utils.ts`) are functions (`Utils`), built on the JavaScript string operations they use (`Text`).

Modelling conventions:
- A JavaScript string is a `seq<char>` of UTF-16 code units, and `.length` is `|s|`.
- `countGrapheme` is an uninterpreted parameter (`Users.Graphemes`), and so is the "uri" string format of the schemas.
- `Date.now()` is a `now` parameter, one instant per operation.
- The resolver's fetched `alsoKnownAs` list is a parameter. It is `None` when the fetch fails.
- A thrown error is a `Result`/`Outcome` value. Statements that ran before the error keep their effect, because each SQL statement is atomic and nothing is wrapped in a transaction.
- Kysely leaves `undefined` values out of an INSERT or an UPDATE. Record properties are therefore `Base.Field` values: absent, null, or a value. Values for JSON columns are carried as the text `JSON.stringify` produces for them.

The model follows the code as written, including behaviour that looks unintended:

- **The nickname is wiped on every message and room write.** The message and room handlers call `updateUser` without a profile, so they set the author's nickname to NULL (`Relay.OnMessage`).
- **Messages are broadcast even when dropped.** The relay broadcasts a message create or update even when the store dropped the content for being too long, because `addMessage` and `updateMessage` return normally without writing.
- **No empty-content check.** The content validator only bounds the length, so empty or blank content is stored and broadcast.
- **The room guard never fires.** `getRoom` is not awaited in the message handler, so its guard never returns. A message for an unknown room fails at the foreign key and the error is caught.
- **Room names are never rejected.** `validateRoomName` is tested as a function object (`!validateRoomName`), which is always truthy. `updateRoom`'s `a.uri !== room.uri` test can never hold.
- **An empty room filter matches nothing.** An empty `wantedRooms` array is truthy, so it lets nothing through.
- **Callbacks are never unregistered.** `removeListener("data", …)` removes nothing, because each callback listens on "message".
- **The text `"null"` passes as facets.** The facets column holds text. `JSON.stringify` of a text value is quoted, so the `!== "null"` test never fires and a stored `"null"` text is returned.
- **Account events read one did and write another.** The account handler looks the user up by `event.did` but writes to `event.account.did`.

## Model

| member | source | states |
|---|---|---|
| Base.OrNull | src/db/user.ts:27 | `x ?? null`: absent and null both become NULL, a value is kept |
| Base.StringifyOrNull | src/db/message.ts:26-27 | `JSON.stringify(x) ?? null`: only an absent property gives NULL; an explicit null gives the text "null" |
| Text.IndexOf | src/utils.ts:10 | the first position where the pattern occurs, or none when it occurs nowhere |
| Text.Split | src/utils.ts:11 | `split(sep)` yields at least one part and no part contains the separator |
| Text.JoinSplit | src/utils.ts:11 | joining the parts of a split with the separator gives back the string |
| Text.SplitAtLeastTwo | src/utils.ts:10-11 | a string containing the separator splits into at least two parts, so `[1]` exists |
| Text.SplitLast | src/routes.ts:70 | the last part of a split on `c` is the text after the last `c` |
| Utils.DidDocumentUrl | src/utils.ts:3-5 | the DID document URL is always an https URL |
| Utils.WebDidUrl | src/utils.ts:3-4 | `did:web:<host>…` is fetched from `https://<host>/.well-known/did.json`, whatever path segments follow |
| Utils.BareWebDidSegments | src/utils.ts:4 | `"did:web".split(":")` has just the two segments "did" and "web" |
| Utils.BareWebDidUrl | src/utils.ts:4 | a bare "did:web" has no third segment and yields host "undefined" |
| Utils.PlcDidUrl | src/utils.ts:5 | any `did:plc:` identifier is fetched from `https://plc.directory/<did>` |
| Utils.AtAliasHasSlashes | src/utils.ts:10-11 | an alias containing "at://" also contains "//", so splitting on "//" has a second part |
| Utils.AliasHandle | src/utils.ts:11 | `alias.split("//")[1]` of an alias containing "at://" |
| Utils.AliasHandleBetween | src/utils.ts:11 | the handle read from an alias is the text between its first "//" and the next "//" (or the end), and holds no "//" |
| Utils.HandleFromAliases | src/utils.ts:9-13 | no handle iff no alias contains "at://"; otherwise the handle comes from the first alias that does |
| Utils.FirstAtExists | src/utils.ts:9-11 | when some alias contains "at://", a first such alias exists |
| Utils.LaterAliasesIgnored | src/utils.ts:9-12 | entries after the first "at://" alias never change the handle |
| Utils.HandleOfAtUri | src/utils.ts:11 | the alias `at://<handle>` yields `<handle>` |
| Utils.ResolvedHandle | src/utils.ts:8-14 | a handle exists iff the fetch succeeded and some alias contains "at://" |
| Schema.ReplaceUserKeepsConsistency | src/db/init.ts:101-108 | rewriting a user's non-key columns keeps every key and foreign-key constraint |
| Schema.KeyedByPrimaryKey | src/db/init.ts:70-103 | every user, room and message is stored under its own primary key (`did`, `uri`, `uri`) |
| Schema.ForeignKeysHold | src/db/init.ts:72-91 | every message's author and room, and every room's owner, exist |
| Schema.Consistent | src/db/init.ts:66-108 | the schema's invariant: keyed by primary key and every foreign key holds |
| Schema.OwnedRooms | src/db/init.ts:90-91 | the rooms whose `owner_did` is the user |
| Schema.DeleteUser | src/db/init.ts:72-91 | deleting a user removes it and cascades to its rooms, its messages and the messages in its rooms; every surviving row keeps its values, and the schema's constraints hold |
| Schema.DeleteRoom | src/db/init.ts:76-77 | deleting a room removes it and every message in it; users and every surviving room and message keep their values, and the constraints hold |
| Schema.DeleteUserKeepsOthers | src/db/init.ts:72-91 | the user cascade removes nothing it does not have to |
| Schema.DeleteRoomKeepsOthers | src/db/init.ts:76-77 | messages posted in other rooms survive a room deletion |
| Schema.DeleteUserLeavesNoTrace | src/db/init.ts:72-91 | after the cascade no room or message refers to the deleted user |
| Users.ValidateNickname | src/db/user.ts:6-10 | the nickname is returned iff it is a non-empty string of at most 32 graphemes and 320 code units; otherwise null |
| Users.ValidateNicknameIdempotent | src/db/user.ts:6-10 | a validated nickname passes validation again unchanged |
| Users.NicknameOf | src/db/user.ts:27 | `user.profile?.nickname` is absent iff there is no profile or the profile has no nickname; otherwise it is the profile's nickname (null included) |
| Users.NewUser | src/db/user.ts:20-34 | the inserted user is active by default, has the resolved handle and stores the profile nickname unvalidated |
| Users.Refreshed | src/db/user.ts:38-46 | `updateUser`'s UPDATE sets only the validated nickname and `updated_at`; did, handle and active stay |
| Users.RefreshedAfterInsertValidates | src/db/user.ts:36-48 | after insert-then-update the stored nickname is within bounds and the row stays active |
| Rooms.ValidateRoomName | src/db/room.ts:5-6 | a name is valid iff it has at most 32 graphemes and 320 code units |
| Rooms.ValidateTopic | src/db/room.ts:8-10 | the topic is returned iff it has at most 256 graphemes and 2560 code units; otherwise null |
| Rooms.TopicColumn | src/db/room.ts:30 | an absent topic stays absent (left out of the statement); null stays null; the empty topic is passed through as "" by `&&`; any other topic is kept iff `validateTopic` accepts it and becomes null otherwise |
| Rooms.NewRoom | src/db/room.ts:23-35 | the inserted row has the uri, cid, owner and name given, `updated_at` = now, no languages or tags, the topic column above (NULL when absent), and allowlist and denylist as `JSON.stringify(x) ?? null` |
| Rooms.Rewritten | src/db/room.ts:45-56 | the UPDATE sets name, cid, topic (unless absent), allowlist, denylist and `updated_at`; owner, languages and tags stay |
| Rooms.RewriteOfNewRoom | src/db/room.ts:44-56 | updating a room that was just created gives the same row as creating it |
| Messages.ValidateMessage | src/db/message.ts:6-7 | content is accepted iff it has at most 2048 graphemes and 20480 code units, with no emptiness check |
| Messages.LongContentRejected | src/utils/env.ts:7 | content over 20480 code units is rejected whatever its grapheme count |
| Messages.NewMessage | src/db/message.ts:19-31 | the inserted row has the uri, cid, author, room and content given, `indexed_at` = now and no `updated_at`; facets and reply are `JSON.stringify(x) ?? null`, so NULL exactly when absent |
| Messages.Edited | src/db/message.ts:38-47 | an edit sets cid, content, facets and `updated_at`; did, room, reply and `indexed_at` stay |
| Database.Store.constructor | src/db/init.ts:66-108 | a freshly migrated database is empty and satisfies the schema |
| Database.UpsertUser | src/db/user.ts:36-49 | fails iff the user is missing and no handle resolves (a failed fetch, or NOT NULL when no alias has one); otherwise the row has the validated nickname and `updated_at` = now, keeps an existing row's did, handle and active, and a new row is active with the resolved handle |
| Database.InsertMessage | src/db/message.ts:17-33 | invalid content leaves the table; a taken uri is a primary-key error; a missing author or room is a foreign-key error; otherwise exactly the new row is added |
| Database.EditMessage | src/db/message.ts:35-49 | invalid content leaves the table; an existing row is edited in place; a missing one is inserted then edited, or the insert's foreign-key error is raised |
| Database.InsertRoom | src/db/room.ts:20-38 | an existing uri writes nothing and resolves to nothing; otherwise exactly the new row is added, or the owner's foreign-key error is raised |
| Database.RewriteRoom | src/db/room.ts:40-59 | never resolves to nothing; an existing room is rewritten and returned as it was; a missing one is inserted with the row a creation writes, or the owner's foreign-key error is raised |
| Database.Store.GetUser | src/db/user.ts:12-18 | the row with that did, exactly when it exists |
| Database.Store.AddUser | src/db/user.ts:20-34 | inserts the new user; fails on a failed fetch, a missing handle (NOT NULL) or an existing did (primary key) |
| Database.Store.UpdateUser | src/db/user.ts:36-49 | returns and stores exactly `Database.UpsertUser` of the old users table; rooms and messages are unchanged |
| Database.Store.DeleteProfile | src/db/user.ts:51-58 | only that user's nickname (set to NULL) and `updated_at` (set to now) change; an unknown did changes nothing |
| Database.Store.UpdateHandle | src/relay.ts:127-131 | only that user's handle and `updated_at` change; an absent handle is left out of the UPDATE, so only `updated_at` changes |
| Database.Store.UpdateActive | src/relay.ts:153-164 | only that user's `active` and `updated_at` change |
| Database.Store.DeleteAccount | src/relay.ts:147-150 | the tables become the user cascade of the old tables |
| Database.Store.GetRoom | src/db/room.ts:12-18 | the row with that uri, exactly when it exists |
| Database.Store.AddRoom | src/db/room.ts:20-38 | the result and the new rooms table, or the error, are exactly `Database.InsertRoom` of the old tables |
| Database.Store.UpdateRoom | src/db/room.ts:40-59 | the result and the new rooms table, or the error, are exactly `Database.RewriteRoom` of the old tables |
| Database.Store.DeleteRoomByUri | src/db/room.ts:61-64 | the tables become the room cascade of the old tables; an absent uri changes nothing |
| Database.Store.GetMessage | src/db/message.ts:9-15 | the row with that uri, exactly when it exists |
| Database.Store.AddMessage | src/db/message.ts:17-33 | the new messages table, or the error, is exactly `Database.InsertMessage` of the old tables; users and rooms are unchanged |
| Database.Store.UpdateMessage | src/db/message.ts:35-49 | the new messages table, or the error, is exactly `Database.EditMessage` of the old tables; users and rooms are unchanged |
| Database.Store.DeleteMessage | src/db/message.ts:51-59 | removes only that uri and returns the room it was in, if it existed |
| Envelopes.AtUri | src/relay.ts:46 | the record uri starts with "at://" and ends with the rkey |
| Envelopes.TypeName | src/relay.ts:65-69 | the `$type` of each envelope: message and room create, update and delete, and `serverState` |
| Envelopes.RoomOf | src/routes.ts:33 | only message create and update envelopes carry a room |
| Subscriptions.Forwards | src/routes.ts:31-34 | a callback forwards an envelope iff the socket has no `wantedRooms`, or the envelope has a room listed in it |
| Subscriptions.Delivered | src/routes.ts:30-36 | a callback forwards exactly the envelopes its filter admits, in stream order |
| Subscriptions.DeliveredAppend | src/routes.ts:30-37 | filtering the stream piecewise gives the same as filtering it whole |
| Subscriptions.UnfilteredGetsAll | src/routes.ts:32 | without `wantedRooms` every envelope is forwarded |
| Subscriptions.FilteredSkipsPresence | src/routes.ts:31-35 | a socket with a room filter never gets a `serverState` envelope from the stream |
| Subscriptions.OpenCountClose | src/routes.ts:40 | closing a socket lowers its own ip's count by one and no other |
| Subscriptions.OpenCountPositive | src/routes.ts:23-28 | an ip has a positive count iff it has an open socket |
| Subscriptions.CountedKeys | src/routes.ts:23-43 | the keys of `ipSet` are exactly the ips with an open socket, each with a positive count |
| Subscriptions.CounterSteps | src/routes.ts:23-42 | a connection adds one to its ip's count, starting from zero; a close takes one off and removes the ip at zero; no other ip's count changes |
| Subscriptions.CountedOpen | src/routes.ts:23-28 | incrementing the ip's entry on open keeps `ipSet` equal to the open counts |
| Subscriptions.CountedClose | src/routes.ts:40-43 | decrementing and deleting at zero on close keeps `ipSet` equal to the open counts |
| Subscriptions.Received | src/routes.ts:29-37 | a socket's messages start with its greeting |
| Subscriptions.ReceivedAppend | src/routes.ts:30-37 | a later emit reaches an open socket through its filter and a closed one not at all |
| Subscriptions.ReceivedClosed | src/routes.ts:38-45 | a closed socket keeps what it received and receives nothing more |
| Subscriptions.Hub.constructor | src/routes.ts:10 | no sessions, no sockets, nothing emitted |
| Subscriptions.Hub.Open | src/routes.ts:22-37 | the first connection of an ip emits the new key count; every connection is sent the key count; open sockets get the emit through their filters; a listener is added |
| Subscriptions.Hub.Close | src/routes.ts:38-45 | the ip's count drops, and at zero the ip is deleted and the key count emitted; no listener is removed |
| Subscriptions.Hub.Publish | src/relay.ts:82 | an emit reaches exactly the open sockets whose filter admits it |
| Base.Truthy | src/routes.ts:56 | a string condition holds iff the string is present and non-empty, and the string is then kept: the room filter applies only to a non-empty uri |
| Listing.Listed | src/routes.ts:56-60 | a row is listed iff its author exists and is active and, when the uri is truthy, it is in that room |
| Listing.Eligible | src/routes.ts:55-60 | keeps exactly the messages whose author exists and is active and that are in the requested room |
| Listing.Insert | src/routes.ts:59 | one row inserted into an ordered sequence keeps it ordered and adds exactly that row |
| Listing.SortNewestFirst | src/routes.ts:59 | a permutation of the rows ordered by `indexed_at` descending |
| Listing.Window | src/routes.ts:61-62 | at most `limit` rows, taken consecutively from position `offset` |
| Listing.NextPageContinues | src/routes.ts:61-67 | fetching from the returned cursor continues exactly where the page ended |
| Listing.NullTextFacetsReturned | src/routes.ts:74-77 | for every row and author, the output facets are the stored facets except that NULL and "" are dropped; in particular a stored text "null" is returned |
| Listing.RkeyOf | src/routes.ts:70 | the last "/" segment of the uri, which contains no "/" |
| Listing.RkeyOfAtUri | src/routes.ts:70 | the last "/" segment of a uri the relay built is the commit's rkey |
| Listing.View | src/routes.ts:68-83 | the output copies the row and the author's handle and nickname; NULL columns are absent |
| Listing.Views | src/routes.ts:68-83 | every row of the page is mapped with its own author |
| Listing.Ordered | src/routes.ts:55-60 | the listed messages, each exactly once, newest first |
| Listing.PageOf | src/routes.ts:61-83 | `limit` rows from `offset` on, fewer at the end of the list, each the `View` of the row at `offset + k` with its author |
| Listing.PageOfNewestFirst | src/routes.ts:59-62 | a page cut from rows ordered newest first is itself newest first |
| Listing.OrderedScan | src/routes.ts:55-60 | over a scan of the table, the ordered rows are exactly the listed messages of the table, each once |
| Listing.GetMessages | src/routes.ts:50-88 | the page is `Listing.PageOf` of `Listing.Ordered`: the ordered listed rows from offset `cursor ?? 0`, at most `limit` of them, each mapped with its author; the cursor is the offset plus the number returned |
| Listing.PageListsTable | src/routes.ts:50-88 | over a scan of the table, a page is newest first and lists only views of messages of the table by active authors in the requested room |
| Listing.InactiveAuthorHidden | src/routes.ts:60 | a message by an inactive author is never listed |
| QuerySchemas.ParseGetMessages | src/lib/schemas.ts:53-57 | accepted iff uri has uri format, limit is an integer in 1..100 and cursor is an integer ≥ 0; limit defaults to 50 |
| QuerySchemas.ParseSocketQuery | src/lib/schemas.ts:60-62 | accepted iff `wantedRooms` is absent or an array of uri-format strings, which are kept in order |
| QuerySchemas.ValidIndex | src/lib/schemas.ts:7-15 | an index has numeric `byteStart` and `byteEnd`; other properties are allowed |
| QuerySchemas.FeatureMatches | src/lib/schemas.ts:16-43 | counts the feature shapes matched; zero iff none of did, uri, room, `$type` is a string property |
| QuerySchemas.ValidFeature | src/lib/schemas.ts:17-42 | `t.one`: a feature matches exactly one of the four shapes |
| QuerySchemas.ValidFacet | src/lib/schemas.ts:5-48 | a facet has a valid `index` and a `features` array of valid features |
| QuerySchemas.ValidFacets | src/lib/schemas.ts:3-50 | the facets are absent, or an array of valid facets |
| QuerySchemas.TypedMentionRejected | src/lib/schemas.ts:17-42 | a feature carrying both `$type` and `did` matches two branches of `t.one`, so the facet list is rejected |
| QuerySchemas.BareMentionAccepted | src/lib/schemas.ts:18-23 | a feature with only `did` among the four keys is accepted, whatever other properties it has |
| Relay.AccountStepFor | src/relay.ts:144-166 | unknown user: nothing; inactive with status "deleted": delete; inactive with another non-empty status: disable; active over an inactive row: reactivate |
| Relay.SilentDeactivationIgnored | src/relay.ts:146-152 | an inactive account without a status changes nothing |
| Relay.ProfileEffect | src/relay.ts:35-42 | nothing is emitted and rooms, messages and other users are unchanged; a delete sets the user's nickname to NULL and `updated_at`, if the user exists; otherwise the user's row is exactly `Database.UpsertUser` of the old users with the record as profile: the validated nickname, an existing row's handle and active kept, a new row active with the resolved handle; or the upsert's error is caught and nothing changes |
| Relay.MessageEffect | src/relay.ts:44-86 | a delete removes that uri and broadcasts the delete; otherwise the author is upserted without a profile (nickname NULL, other users unchanged) or the error is caught; then dropped content broadcasts with messages unchanged, a duplicate create is a caught primary-key error, a missing room a caught foreign-key error, and otherwise exactly the new or edited row is stored and the create or update envelope is broadcast with the author's handle, no nickname and `indexedAt` = now |
| Relay.RoomEffect | src/relay.ts:88-121 | a delete is the room cascade and broadcasts; otherwise the owner is upserted without a profile or the error is caught with nothing changed; a create of an existing room is quiet and changes no room, a new one is inserted and broadcast; an update rewrites the existing row or inserts a new one and always broadcasts; messages never change |
| Relay.IdentityEffect | src/relay.ts:123-139 | nothing is emitted; an unknown user or an equal handle changes nothing; otherwise only that user's handle (when present) and `updated_at` change |
| Relay.SetActive | src/relay.ts:153-164 | only the given user's `active` and `updated_at` change, and no user is added or removed |
| Relay.AccountEffect | src/relay.ts:141-170 | nothing is emitted; the step chosen on `event.did` runs on `event.account.did`: nothing, the user cascade, or `active` set false or true; for a single did with an active flag or a non-empty status the row ends removed or with `active` equal to the event's |
| Relay.EventEffect | src/relay.ts:35-170 | each event kind has its handler's effect and events of other collections change nothing; only message and room events broadcast, and identity and account events never fail |
| Relay.OnProfile | src/relay.ts:35-42 | the new tables and the outcome are exactly `Relay.ProfileEffect` of the old tables |
| Relay.OnMessage | src/relay.ts:44-86 | the new tables and the outcome are exactly `Relay.MessageEffect` of the old tables; the hub's stream gains exactly the envelope broadcast, and nothing else in the hub changes |
| Relay.OnRoom | src/relay.ts:88-121 | the new tables and the outcome are exactly `Relay.RoomEffect` of the old tables; the hub's stream gains exactly the envelope broadcast, and nothing else in the hub changes |
| Relay.OnIdentity | src/relay.ts:123-139 | the new tables are exactly `Relay.IdentityEffect` of the old tables |
| Relay.OnAccount | src/relay.ts:141-170 | the new tables are exactly `Relay.AccountEffect` of the old tables |
| Relay.HandleEvent | src/relay.ts:35-170 | the new tables and the outcome are exactly `Relay.EventEffect` of the old tables; the stream gains at most the envelope broadcast |

## Left out

- The Jetstream client, the `cursor.txt` checkpoint and its timer are left out (src/relay.ts:13-33, 172), because they are network and file I/O. The timer writes the cursor only when it is truthy.
- The websocket transport and Node's EventEmitter are left out. Broadcasting is appending to `Subscriptions.Hub.stream`, and delivery is the filter `Subscriptions.Delivered`. The server's `setMaxListeners(0)` is not modelled.
- Kysely query building, better-sqlite3, the WAL pragma and the Migrator are left out (src/db/init.ts:119-134), because they are a foreign library. Their effect is the map operations and explicit cascades. SQLite's statement-level errors are reduced to `Schema.DbError`.
- `fetch` and JSON parsing in `resolveDid` are left out because they are network I/O. Their result is the `alsoKnownAs` parameter. `src/db/user.ts` imports `resolveDid` from `src/utils/api.ts`; `src/utils/api.ts` is not part of this model, and the choices of `src/utils.ts` stand in for it.
- `src/rpc.ts`, `src/index.ts`, `src/db.ts` and the environment loading in `src/env.ts` and `src/utils/env.ts` are left out. They cover outbound publishing, bootstrap, an older schema that no handler uses, and configuration. Only `GRAPHLIMIT` and `CHARLIMIT` are kept.
- Grapheme segmentation (unicode-segmenter) is left out as a foreign library. It is the parameter `Users.Graphemes`.
- Logging and rate limiting are left out as side effects.
- Database.Store.UpdateUser: `Date.now()` is read several times within one operation in the source, but the model uses one `now` per operation, so the instants written by the insert and by the update coincide.
- Listing.GetMessages: rows with equal `indexed_at` are returned in the scan order given as `rows`, because SQL leaves their order unspecified. Only the ordering by `indexed_at` is promised.
- QuerySchemas.ParseGetMessages: the query values arrive already typed. Ajv's coercion of query strings to numbers and arrays, and its removal of unknown keys, are not modelled.
- `FacetsSchema` is exported but no route applies it, so `QuerySchemas.ValidFacets` is not connected to any handler.
- `JSON.stringify` escaping of record values is not modelled. JSON-valued properties are carried as their JSON text.
- Relay.OnMessage: the un-awaited `getRoom` promise is never observed. Its own outcome, including an unhandled rejection, is not modelled.
- Relay.HandleEvent: each handler is modelled as one atomic step, in stream order, on the state the previous event left. In the source the async listeners interleave at every `await`. For example, two first events from the same unknown did can both miss `getUser`, and then the second `addUser` fails on the primary key. Such interleavings are not modelled.
- Relay.OnMessage, Relay.OnRoom: the `name` and `room` of a room record and the `content` and `room` of a message record (`Rooms.RoomRecord`, `Messages.MessageRecord`) are taken as present strings. The relay does not validate records, and an absent one would give a NOT NULL error or a thrown `countGrapheme`, which the model does not cover. The identity event's handle is modelled as optional (`Relay.OnIdentity`).
