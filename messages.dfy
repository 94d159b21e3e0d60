/** The value-level rules of src/db/message.ts: the content validator and the rows written. */
module Messages {
  import opened Base
  import opened Schema
  import opened Users

  /** `GRAPHLIMIT` and `CHARLIMIT` as src/utils/env.ts defines them, the values the store imports. */
  const GraphLimit: nat := 2048
  const CharLimit: nat := 20480

  /**
   * The `social.psky.chat.message` record; `facets` and `reply` are carried as the
   * JSON text `JSON.stringify` would produce for them.
   */
  datatype MessageRecord = MessageRecord(
    content: string,
    room: string,
    facets: Field<string>,
    reply: Field<string>)

  /** The `Message` the relay hands to the store (src/utils/types.ts). */
  datatype MessageInput = MessageInput(uri: string, cid: string, did: string, msg: MessageRecord)

  /**
   * `validateMessage`: at most `GraphLimit` graphemes and at most `CharLimit` code
   * units. There is no emptiness or trimming check.
   */
  function ValidateMessage(graphemes: Graphemes, content: string): (ok: bool)
    ensures ok <==> graphemes(content) <= GraphLimit && |content| <= CharLimit
  {
    graphemes(content) <= GraphLimit && |content| <= CharLimit
  }

  /** A message longer than `CharLimit` code units is rejected whatever its grapheme count. */
  lemma LongContentRejected(graphemes: Graphemes, content: string)
    requires |content| > CharLimit
    ensures !ValidateMessage(graphemes, content)
  {
  }

  /**
   * The row `addMessage` inserts: `indexed_at` is the current time, `updated_at` is
   * left NULL, and absent `facets` or `reply` are NULL.
   */
  function NewMessage(input: MessageInput, now: int): (r: MessageRow)
    ensures r.uri == input.uri && r.cid == input.cid && r.did == input.did
    ensures r.room == input.msg.room && r.content == input.msg.content
    ensures r.indexedAt == now && r.updatedAt.None?
    ensures r.facets.None? <==> input.msg.facets.Missing?
    ensures r.reply.None? <==> input.msg.reply.Missing?
    ensures r.facets == StringifyOrNull(input.msg.facets) && r.reply == StringifyOrNull(input.msg.reply)
  {
    MessageRow(
      input.uri, input.cid, input.did, input.msg.content, input.msg.room,
      StringifyOrNull(input.msg.facets),
      StringifyOrNull(input.msg.reply),
      now,
      None)
  }

  /** The row after `updateMessage`'s UPDATE: only `cid`, `content`, `facets` and `updated_at` change. */
  function Edited(row: MessageRow, input: MessageInput, now: int): (r: MessageRow)
    ensures r.uri == row.uri && r.did == row.did && r.room == row.room && r.reply == row.reply
    ensures r.indexedAt == row.indexedAt
    ensures r.cid == input.cid && r.content == input.msg.content && r.updatedAt == Some(now)
    ensures r.facets == StringifyOrNull(input.msg.facets)
  {
    row.(
      cid := input.cid,
      content := input.msg.content,
      facets := StringifyOrNull(input.msg.facets),
      updatedAt := Some(now))
  }
}
