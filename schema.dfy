/**
 * The relational schema of migration "001" (src/db/init.ts): three tables keyed by
 * their primary keys, the NOT NULL columns, the default of `users.active`, and the
 * foreign keys with their ON DELETE CASCADE rules, which SQLite enforces because the
 * connection turns `foreign_keys` on.
 *
 * Each table is a map from primary key to row, so at most one row exists per key.
 * JSON-valued columns (`facets`, `reply`, `languages`, `tags`, `allowlist`,
 * `denylist`) hold the JSON text that was written into them.
 */
module Schema {
  import opened Base

  /** A row of `users`. `active` is NOT NULL with default true; `nickname` may be NULL. */
  datatype UserRow = UserRow(
    did: string,
    handle: string,
    active: bool,
    nickname: Option<string>,
    updatedAt: int)

  /** A row of `rooms`. Only `languages`, `topic`, `tags`, `allowlist` and `denylist` may be NULL. */
  datatype RoomRow = RoomRow(
    uri: string,
    cid: string,
    ownerDid: string,
    name: string,
    languages: Option<string>,
    topic: Option<string>,
    tags: Option<string>,
    allowlist: Option<string>,
    denylist: Option<string>,
    updatedAt: int)

  /** A row of `messages`: `indexed_at` is NOT NULL, `updated_at` stays NULL until the first edit. */
  datatype MessageRow = MessageRow(
    uri: string,
    cid: string,
    did: string,
    content: string,
    room: string,
    facets: Option<string>,
    reply: Option<string>,
    indexedAt: int,
    updatedAt: Option<int>)

  /** The whole database: `users` by `did`, `rooms` and `messages` by `uri`. */
  datatype Tables = Tables(
    users: map<string, UserRow>,
    rooms: map<string, RoomRow>,
    messages: map<string, MessageRow>)

  /** The errors a statement can raise: a duplicate primary key, or a reference to a missing row. */
  datatype DbError = PrimaryKeyConflict | ForeignKeyViolation | NotNullViolation | ResolutionFailed

  /** Every row is stored under its own primary key. */
  ghost predicate KeyedByPrimaryKey(t: Tables)
  {
    && (forall d :: d in t.users ==> t.users[d].did == d)
    && (forall u :: u in t.rooms ==> t.rooms[u].uri == u)
    && (forall u :: u in t.messages ==> t.messages[u].uri == u)
  }

  /**
   * `messages.did` references `users.did`, `messages.room` references `rooms.uri`
   * and `rooms.owner_did` references `users.did`.
   */
  ghost predicate ForeignKeysHold(t: Tables)
  {
    && (forall u :: u in t.rooms ==> t.rooms[u].ownerDid in t.users)
    && (forall u :: u in t.messages ==> t.messages[u].did in t.users && t.messages[u].room in t.rooms)
  }

  /** The invariant every table state of the migrated schema keeps. */
  ghost predicate Consistent(t: Tables)
  {
    KeyedByPrimaryKey(t) && ForeignKeysHold(t)
  }

  /** Rewriting a user's non-key columns keeps every constraint. */
  lemma ReplaceUserKeepsConsistency(t: Tables, did: string, row: UserRow)
    requires Consistent(t) && did in t.users && row.did == did
    ensures Consistent(t.(users := t.users[did := row]))
  {
    assert t.users[did := row].Keys == t.users.Keys;
  }

  /** The rooms the user `did` owns. */
  function OwnedRooms(t: Tables, did: string): (owned: set<string>)
    ensures forall u :: u in owned <==> u in t.rooms && t.rooms[u].ownerDid == did
  {
    set u | u in t.rooms && t.rooms[u].ownerDid == did
  }

  /**
   * `DELETE FROM users WHERE did = ?` with its cascades: the rooms the user owns,
   * the messages the user authored, and (through the rooms' own cascade) every
   * message posted in one of those rooms.
   */
  function DeleteUser(t: Tables, did: string): (r: Tables)
    ensures did !in r.users && r.users.Keys == t.users.Keys - {did}
    ensures forall d :: d in r.users ==> r.users[d] == t.users[d]
    ensures forall u :: u in r.rooms ==> u in t.rooms && r.rooms[u] == t.rooms[u] && r.rooms[u].ownerDid != did
    ensures forall u :: u in r.messages ==> u in t.messages && r.messages[u] == t.messages[u] && r.messages[u].did != did
    ensures Consistent(t) ==> Consistent(r)
  {
    var owned := OwnedRooms(t, did);
    Tables(
      t.users - {did},
      map u | u in t.rooms && u !in owned :: t.rooms[u],
      map u | u in t.messages && t.messages[u].did != did && t.messages[u].room !in owned :: t.messages[u])
  }

  /** `DELETE FROM rooms WHERE uri = ?` with its cascade to the messages posted in that room. */
  function DeleteRoom(t: Tables, uri: string): (r: Tables)
    ensures r.users == t.users
    ensures uri !in r.rooms && r.rooms.Keys == t.rooms.Keys - {uri}
    ensures forall u :: u in r.rooms ==> r.rooms[u] == t.rooms[u]
    ensures forall u :: u in r.messages ==> u in t.messages && r.messages[u] == t.messages[u] && r.messages[u].room != uri
    ensures Consistent(t) ==> Consistent(r)
  {
    Tables(
      t.users,
      t.rooms - {uri},
      map u | u in t.messages && t.messages[u].room != uri :: t.messages[u])
  }

  /** Deleting a user removes no more than the cascade demands: every other row stays. */
  lemma DeleteUserKeepsOthers(t: Tables, did: string)
    requires Consistent(t)
    ensures forall d :: d in t.users && d != did ==> d in DeleteUser(t, did).users
    ensures forall u :: u in t.rooms && t.rooms[u].ownerDid != did ==> u in DeleteUser(t, did).rooms
    ensures forall u :: u in t.messages && t.messages[u].did != did && t.rooms[t.messages[u].room].ownerDid != did
                  ==> u in DeleteUser(t, did).messages
  {
  }

  /** Deleting a room keeps every message posted elsewhere. */
  lemma DeleteRoomKeepsOthers(t: Tables, uri: string)
    ensures forall u :: u in t.messages && t.messages[u].room != uri ==> u in DeleteRoom(t, uri).messages
  {
  }

  /**
   * After a user is deleted no row refers to it: the cascade leaves no room it owned,
   * no message it wrote, and no message in a room it owned.
   */
  lemma {:induction false} DeleteUserLeavesNoTrace(t: Tables, did: string)
    requires Consistent(t)
    ensures forall u :: u in DeleteUser(t, did).rooms ==> DeleteUser(t, did).rooms[u].ownerDid != did
    ensures forall u :: u in DeleteUser(t, did).messages ==>
              && DeleteUser(t, did).messages[u].did != did
              && t.rooms[DeleteUser(t, did).messages[u].room].ownerDid != did
  {
    var r := DeleteUser(t, did);
    forall u | u in r.messages
      ensures t.rooms[r.messages[u].room].ownerDid != did
    {
      assert r.messages[u].room in r.rooms;
    }
  }
}
