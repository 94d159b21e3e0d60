/**
 * The upstream commit events the relay listens to (a tagged union keyed by
 * collection and commit type) and the envelopes it broadcasts to subscribers.
 */
module Envelopes {
  import opened Base
  import opened Users
  import opened Rooms
  import opened Messages

  /** A commit's `type`: "c", "u" or "d". */
  datatype CommitKind = Create | Update | Delete

  /**
   * `event.commit`. Jetstream sends no `cid` or `record` with a delete; the handlers
   * never read them on that path.
   */
  datatype Commit<R> = Commit(kind: CommitKind, collection: string, rkey: string, cid: string, record: R)

  /**
   * The events `startJetstream` subscribes to, by collection or event kind. The
   * identity handler reads `event.identity.handle` without checking that it is
   * present, so the handle is optional.
   */
  datatype Event =
    | ProfileEvent(did: string, profileCommit: Commit<Profile>)
    | MessageEvent(did: string, messageCommit: Commit<MessageRecord>)
    | RoomEvent(did: string, roomCommit: Commit<RoomRecord>)
    | IdentityEvent(did: string, handle: Option<string>)
    | AccountEvent(did: string, accountDid: string, active: bool, status: Option<string>)
    | OtherEvent(collection: string)

  /** The record uri the relay builds for a commit: `at://<did>/<collection>/<rkey>`. */
  function AtUri(did: string, collection: string, rkey: string): (uri: string)
    ensures |uri| == 5 + |did| + 1 + |collection| + 1 + |rkey|
    ensures uri[..5] == "at://" && uri[|uri| - |rkey|..] == rkey
  {
    "at://" + did + "/" + collection + "/" + rkey
  }

  /** The fields of a message create or update envelope. */
  datatype MessageBody = MessageBody(
    did: string,
    rkey: string,
    cid: string,
    content: string,
    room: string,
    facets: Field<string>,
    reply: Field<string>,
    handle: string,
    nickname: Option<string>,
    indexedAt: int)

  /** What is emitted on the websocket server's "message" channel. */
  datatype Envelope =
    | MessageCreated(body: MessageBody)
    | MessageUpdated(body: MessageBody)
    | MessageDeleted(event: Event)
    | RoomCreated(record: Event)
    | RoomUpdated(record: Event)
    | RoomDeleted(event: Event)
    | ServerState(sessionCount: nat)

  /** The envelope's `$type`. */
  function TypeName(e: Envelope): string
  {
    match e
    case MessageCreated(_) => "social.psky.chat.message#create"
    case MessageUpdated(_) => "social.psky.chat.message#update"
    case MessageDeleted(_) => "social.psky.chat.message#delete"
    case RoomCreated(_) => "social.psky.chat.room#create"
    case RoomUpdated(_) => "social.psky.chat.room#update"
    case RoomDeleted(_) => "social.psky.chat.room#delete"
    case ServerState(_) => "serverState"
  }

  /**
   * `JSON.parse(data).room`: only message create and update envelopes have a
   * top-level `room`; deletes, room envelopes and `serverState` do not.
   */
  function RoomOf(e: Envelope): (room: Option<string>)
    ensures room.Some? <==> e.MessageCreated? || e.MessageUpdated?
  {
    match e
    case MessageCreated(b) => Some(b.room)
    case MessageUpdated(b) => Some(b.room)
    case _ => None
  }
}
