/** The value-level rules of src/db/room.ts: the two validators and the rows written. */
module Rooms {
  import opened Base
  import opened Schema
  import opened Users

  const RoomNameMaxGraphemes: nat := 32
  const RoomNameMaxLength: nat := 320
  const TopicMaxGraphemes: nat := 256
  const TopicMaxLength: nat := 2560

  /**
   * The `social.psky.chat.room` record. The JSON-valued lists are carried as the
   * JSON text `JSON.stringify` would produce for them.
   */
  datatype RoomRecord = RoomRecord(
    name: string,
    topic: Field<string>,
    allowlist: Field<string>,
    denylist: Field<string>)

  /** The `Room` the relay hands to the store (src/utils/types.ts). */
  datatype RoomInput = RoomInput(uri: string, cid: string, owner: string, room: RoomRecord)

  /** What `addRoom` and `updateRoom` resolve to: nothing, an insert result, or the row found. */
  datatype RoomWrite = Skipped | Inserted | Found(row: RoomRow)

  /**
   * `validateRoomName`. The store never calls it: its guard `!validateRoomName`
   * tests the function object, which is always truthy, so no name is rejected.
   */
  function ValidateRoomName(graphemes: Graphemes, name: string): (ok: bool)
    ensures ok <==> graphemes(name) <= RoomNameMaxGraphemes && |name| <= RoomNameMaxLength
  {
    graphemes(name) <= RoomNameMaxGraphemes && |name| <= RoomNameMaxLength
  }

  /** `validateTopic`: the topic itself within 256 graphemes and 2560 code units, otherwise null. */
  function ValidateTopic(graphemes: Graphemes, topic: string): (r: Option<string>)
    ensures r.Some? <==> graphemes(topic) <= TopicMaxGraphemes && |topic| <= TopicMaxLength
    ensures r.Some? ==> r.value == topic
  {
    if graphemes(topic) <= TopicMaxGraphemes && |topic| <= TopicMaxLength then Some(topic) else None
  }

  /**
   * `room.room.topic && validateTopic(room.room.topic)`: an absent topic stays
   * `undefined`, a null or empty topic is passed through by `&&`, and any other
   * topic is validated (null when out of bounds).
   */
  function TopicColumn(graphemes: Graphemes, topic: Field<string>): (r: Field<string>)
    ensures r.Missing? <==> topic.Missing?
    ensures topic.Null? ==> r.Null?
    ensures topic == Value("") ==> r == Value("")
    ensures r.Value? ==> topic.Value? && r.value == topic.value
    ensures topic.Value? && topic.value != "" ==> (r.Value? <==> ValidateTopic(graphemes, topic.value).Some?)
  {
    match topic
    case Missing => Missing
    case Null => Null
    case Value(t) =>
      if t == "" then Value("")
      else match ValidateTopic(graphemes, t)
        case Some(v) => Value(v)
        case None => Null
  }

  /**
   * The row `addRoom` inserts. An `undefined` value is left out of the INSERT, so an
   * absent topic is NULL; `languages` and `tags` are never written.
   */
  function NewRoom(graphemes: Graphemes, input: RoomInput, now: int): (r: RoomRow)
    ensures r.uri == input.uri && r.cid == input.cid && r.ownerDid == input.owner && r.name == input.room.name
    ensures r.updatedAt == now
    ensures r.languages.None? && r.tags.None?
    ensures r.topic.Some? ==> input.room.topic.Value? && r.topic.value == input.room.topic.value
    ensures input.room.topic == Value("") ==> r.topic == Some("")
    ensures input.room.topic.Value? && input.room.topic.value != "" ==>
              (r.topic.Some? <==> ValidateTopic(graphemes, input.room.topic.value).Some?)
    ensures r.allowlist == StringifyOrNull(input.room.allowlist) && r.denylist == StringifyOrNull(input.room.denylist)
  {
    RoomRow(
      input.uri, input.cid, input.owner, input.room.name,
      None,
      OrNull(TopicColumn(graphemes, input.room.topic)),
      None,
      StringifyOrNull(input.room.allowlist),
      StringifyOrNull(input.room.denylist),
      now)
  }

  /**
   * The row after `updateRoom`'s UPDATE: `name`, `cid`, `allowlist`, `denylist` and
   * `updated_at` are set; `topic` is set unless it is `undefined`, which the UPDATE
   * leaves out; `owner_did`, `languages` and `tags` are never touched.
   */
  function Rewritten(row: RoomRow, graphemes: Graphemes, input: RoomInput, now: int): (r: RoomRow)
    ensures r.uri == row.uri && r.ownerDid == row.ownerDid && r.languages == row.languages && r.tags == row.tags
    ensures r.name == input.room.name && r.cid == input.cid && r.updatedAt == now
    ensures input.room.topic.Missing? ==> r.topic == row.topic
    ensures !input.room.topic.Missing? ==> r.topic == OrNull(TopicColumn(graphemes, input.room.topic))
    ensures r.allowlist == StringifyOrNull(input.room.allowlist) && r.denylist == StringifyOrNull(input.room.denylist)
  {
    var topic := TopicColumn(graphemes, input.room.topic);
    row.(
      name := input.room.name,
      cid := input.cid,
      topic := if topic.Missing? then row.topic else OrNull(topic),
      allowlist := StringifyOrNull(input.room.allowlist),
      denylist := StringifyOrNull(input.room.denylist),
      updatedAt := now)
  }

  /** Rewriting the freshly inserted row gives the inserted row again, stamped `now`. */
  lemma RewriteOfNewRoom(graphemes: Graphemes, input: RoomInput, now: int, later: int)
    ensures Rewritten(NewRoom(graphemes, input, now), graphemes, input, later)
            == NewRoom(graphemes, input, later)
  {
  }
}
