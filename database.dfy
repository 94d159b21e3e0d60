/**
 * The materialised store: the three tables of src/db/init.ts held as maps, and the
 * get/add/update/delete operations of src/db/user.ts, src/db/room.ts and
 * src/db/message.ts as methods that change them statement by statement. A thrown
 * error is an `Err`/`Fail` result; since every statement is atomic, the statements
 * that ran before the failing one keep their effect.
 */
module Database {
  import opened Base
  import opened Schema
  import opened Users
  import opened Rooms
  import opened Messages
  import opened Utils

  /**
   * What `updateUser` leaves in the users table for `did`: the existing row, or the
   * row `addUser` inserts, with the validated nickname and `updated_at` set; or the
   * error `addUser` raises when the user is missing and cannot be created.
   */
  function UpsertUser(users: map<string, UserRow>, graphemes: Graphemes, did: string, profile: Option<Profile>,
                      alsoKnownAs: Option<seq<string>>, now: int): (r: Result<UserRow, DbError>)
    ensures r.Err? <==> did !in users && ResolvedHandle(alsoKnownAs).None?
    ensures r.Err? ==> r.error == if alsoKnownAs.None? then ResolutionFailed else NotNullViolation
    ensures r.Ok? ==> r.value.nickname == ValidateNickname(graphemes, NicknameOf(profile)) && r.value.updatedAt == now
    ensures r.Ok? && did in users ==>
              r.value.did == users[did].did && r.value.handle == users[did].handle && r.value.active == users[did].active
    ensures r.Ok? && did !in users ==>
              r.value.did == did && r.value.handle == ResolvedHandle(alsoKnownAs).value && r.value.active
  {
    if did in users then Ok(Refreshed(users[did], graphemes, profile, now))
    else if alsoKnownAs.None? then Err(ResolutionFailed)
    else match ResolvedHandle(alsoKnownAs)
      case None => Err(NotNullViolation)
      case Some(handle) => Ok(Refreshed(NewUser(did, handle, profile, now), graphemes, profile, now))
  }

  /**
   * What `addMessage` leaves in the messages table: unchanged for invalid content,
   * otherwise the new row, or the constraint error the INSERT raises.
   */
  function InsertMessage(t: Tables, graphemes: Graphemes, input: MessageInput, now: int)
    : (r: Result<map<string, MessageRow>, DbError>)
    ensures !ValidateMessage(graphemes, input.msg.content) ==> r == Ok(t.messages)
    ensures ValidateMessage(graphemes, input.msg.content) && input.uri in t.messages ==> r == Err(PrimaryKeyConflict)
    ensures ValidateMessage(graphemes, input.msg.content) && input.uri !in t.messages ==>
              if input.did in t.users && input.msg.room in t.rooms
              then r == Ok(t.messages[input.uri := NewMessage(input, now)])
              else r == Err(ForeignKeyViolation)
  {
    if !ValidateMessage(graphemes, input.msg.content) then Ok(t.messages)
    else if input.uri in t.messages then Err(PrimaryKeyConflict)
    else if input.did !in t.users || input.msg.room !in t.rooms then Err(ForeignKeyViolation)
    else Ok(t.messages[input.uri := NewMessage(input, now)])
  }

  /**
   * What `updateMessage` leaves in the messages table: unchanged for invalid content,
   * otherwise the existing or freshly inserted row edited, or the INSERT's error.
   */
  function EditMessage(t: Tables, graphemes: Graphemes, input: MessageInput, now: int)
    : (r: Result<map<string, MessageRow>, DbError>)
    ensures !ValidateMessage(graphemes, input.msg.content) ==> r == Ok(t.messages)
    ensures ValidateMessage(graphemes, input.msg.content) && input.uri in t.messages ==>
              r == Ok(t.messages[input.uri := Edited(t.messages[input.uri], input, now)])
    ensures ValidateMessage(graphemes, input.msg.content) && input.uri !in t.messages ==>
              if input.did in t.users && input.msg.room in t.rooms
              then r == Ok(t.messages[input.uri := Edited(NewMessage(input, now), input, now)])
              else r == Err(ForeignKeyViolation)
  {
    if !ValidateMessage(graphemes, input.msg.content) then Ok(t.messages)
    else if input.uri in t.messages then Ok(t.messages[input.uri := Edited(t.messages[input.uri], input, now)])
    else
      match InsertMessage(t, graphemes, input, now)
      case Err(e) => Err(e)
      case Ok(ms) =>
        var edited := Edited(NewMessage(input, now), input, now);
        assert ms == t.messages[input.uri := NewMessage(input, now)];
        assert ms[input.uri := edited] == t.messages[input.uri := edited];
        Ok(ms[input.uri := Edited(ms[input.uri], input, now)])
  }

  /**
   * What `addRoom` resolves to and leaves in the rooms table: nothing written for an
   * existing uri, otherwise the new row, or the owner's foreign-key error.
   */
  function InsertRoom(t: Tables, graphemes: Graphemes, input: RoomInput, now: int)
    : (r: Result<(RoomWrite, map<string, RoomRow>), DbError>)
    ensures input.uri in t.rooms ==> r == Ok((Skipped, t.rooms))
    ensures input.uri !in t.rooms ==>
              if input.owner in t.users
              then r == Ok((Inserted, t.rooms[input.uri := NewRoom(graphemes, input, now)]))
              else r == Err(ForeignKeyViolation)
  {
    if input.uri in t.rooms then Ok((Skipped, t.rooms))
    else if input.owner !in t.users then Err(ForeignKeyViolation)
    else Ok((Inserted, t.rooms[input.uri := NewRoom(graphemes, input, now)]))
  }

  /**
   * What `updateRoom` resolves to and leaves in the rooms table. An existing room is
   * rewritten; a missing one is inserted, and its rewrite gives the inserted row
   * back, so an update of a missing room acts as its creation.
   */
  function RewriteRoom(t: Tables, graphemes: Graphemes, input: RoomInput, now: int)
    : (r: Result<(RoomWrite, map<string, RoomRow>), DbError>)
    ensures r.Ok? ==> !r.value.0.Skipped?
    ensures input.uri in t.rooms ==>
              r == Ok((Found(t.rooms[input.uri]), t.rooms[input.uri := Rewritten(t.rooms[input.uri], graphemes, input, now)]))
    ensures input.uri !in t.rooms ==>
              if input.owner in t.users
              then r == Ok((Inserted, t.rooms[input.uri := NewRoom(graphemes, input, now)]))
              else r == Err(ForeignKeyViolation)
  {
    if input.uri in t.rooms then
      Ok((Found(t.rooms[input.uri]), t.rooms[input.uri := Rewritten(t.rooms[input.uri], graphemes, input, now)]))
    else
      match InsertRoom(t, graphemes, input, now)
      case Err(e) => Err(e)
      case Ok(added) =>
        var row := NewRoom(graphemes, input, now);
        RewriteOfNewRoom(graphemes, input, now, now);
        assert added.1 == t.rooms[input.uri := row];
        assert added.1[input.uri := row] == t.rooms[input.uri := row];
        Ok((added.0, added.1[input.uri := Rewritten(added.1[input.uri], graphemes, input, now)]))
  }

  class Store {
    /** `countGrapheme`, fixed for the lifetime of the store. */
    const graphemes: Graphemes
    var users: map<string, UserRow>
    var rooms: map<string, RoomRow>
    var messages: map<string, MessageRow>

    function Snapshot(): Tables
      reads this
    {
      Tables(users, rooms, messages)
    }

    /** The schema's constraints: rows keyed by their primary keys, foreign keys satisfied. */
    ghost predicate Valid()
      reads this
    {
      Consistent(Snapshot())
    }

    /** A freshly migrated, empty database. */
    constructor (graphemes: Graphemes)
      ensures Valid()
      ensures this.graphemes == graphemes
      ensures users == map[] && rooms == map[] && messages == map[]
    {
      this.graphemes := graphemes;
      users, rooms, messages := map[], map[], map[];
    }

    // ---------------------------------------------------------------- users

    /** `getUser`: the row with that did, if any. */
    method GetUser(did: string) returns (r: Option<UserRow>)
      requires Valid()
      ensures r.Some? <==> did in users
      ensures r.Some? ==> r.value == users[did] && r.value.did == did
    {
      r := if did in users then Some(users[did]) else None;
    }

    /**
     * `addUser`: resolves the handle, then inserts the row. The fetch failing throws;
     * no "at://" alias leaves the handle `undefined`, which the NOT NULL column refuses;
     * an existing did violates the primary key.
     */
    method AddUser(did: string, profile: Option<Profile>, alsoKnownAs: Option<seq<string>>, now: int)
      returns (r: Result<UserRow, DbError>)
      requires Valid()
      modifies this
      ensures Valid()
      ensures rooms == old(rooms) && messages == old(messages)
      ensures r.Ok? <==> ResolvedHandle(alsoKnownAs).Some? && did !in old(users)
      ensures r.Ok? ==> && r.value == NewUser(did, ResolvedHandle(alsoKnownAs).value, profile, now)
                        && r.value.active
                        && users == old(users)[did := r.value]
      ensures r.Err? ==> users == old(users)
      ensures r.Err? ==> r.error == if alsoKnownAs.None? then ResolutionFailed
                                   else if ResolvedHandle(alsoKnownAs).None? then NotNullViolation
                                   else PrimaryKeyConflict
    {
      if alsoKnownAs.None? {
        return Err(ResolutionFailed);
      }
      var handle := ResolvedHandle(alsoKnownAs);
      if handle.None? {
        return Err(NotNullViolation);
      }
      if did in users {
        return Err(PrimaryKeyConflict);
      }
      var row := NewUser(did, handle.value, profile, now);
      users := users[did := row];
      r := Ok(row);
    }

    /**
     * `updateUser`: creates the user first when it is missing, then sets the
     * validated nickname and `updated_at`, and returns the row read back.
     */
    method UpdateUser(did: string, profile: Option<Profile>, alsoKnownAs: Option<seq<string>>, now: int)
      returns (r: Result<UserRow, DbError>)
      requires Valid()
      modifies this
      ensures Valid()
      ensures rooms == old(rooms) && messages == old(messages)
      ensures r.Err? <==> did !in old(users) && ResolvedHandle(alsoKnownAs).None?
      ensures r.Err? ==> users == old(users)
      ensures r.Ok? ==> && users == old(users)[did := r.value]
                        && r.value.did == did
                        && r.value.nickname == ValidateNickname(graphemes, NicknameOf(profile))
                        && r.value.updatedAt == now
      ensures r.Ok? && did in old(users) ==>
                r.value == Refreshed(old(users)[did], graphemes, profile, now)
      ensures r.Ok? && did !in old(users) ==>
                r.value == Refreshed(NewUser(did, ResolvedHandle(alsoKnownAs).value, profile, now), graphemes, profile, now)
      ensures r == UpsertUser(old(users), graphemes, did, profile, alsoKnownAs, now)
    {
      var existing := GetUser(did);
      if existing.None? {
        var added := AddUser(did, profile, alsoKnownAs, now);
        if added.Err? {
          return Err(added.error);
        }
      }
      var updated := Refreshed(users[did], graphemes, profile, now);
      ReplaceUserKeepsConsistency(Snapshot(), did, updated);
      users := users[did := updated];
      var row := GetUser(did);
      r := Ok(row.value);
    }

    /** `deleteProfile`: clears that user's nickname and sets `updated_at`; an unknown did changes nothing. */
    method DeleteProfile(did: string, now: int)
      requires Valid()
      modifies this
      ensures Valid()
      ensures rooms == old(rooms) && messages == old(messages)
      ensures did in old(users) ==> users == old(users)[did := old(users)[did].(nickname := None, updatedAt := now)]
      ensures did !in old(users) ==> users == old(users)
    {
      if did in users {
        users := users[did := users[did].(nickname := None, updatedAt := now)];
      }
    }

    /**
     * `UPDATE users SET handle, updated_at WHERE did = ?` (the identity handler). An
     * `undefined` handle is left out of the SET, so only `updated_at` changes.
     */
    method UpdateHandle(did: string, handle: Option<string>, now: int)
      requires Valid()
      modifies this
      ensures Valid()
      ensures rooms == old(rooms) && messages == old(messages)
      ensures did in old(users) && handle.Some? ==>
                users == old(users)[did := old(users)[did].(handle := handle.value, updatedAt := now)]
      ensures did in old(users) && handle.None? ==> users == old(users)[did := old(users)[did].(updatedAt := now)]
      ensures did !in old(users) ==> users == old(users)
    {
      if did in users {
        var row := users[did];
        users := users[did := if handle.Some? then row.(handle := handle.value, updatedAt := now) else row.(updatedAt := now)];
      }
    }

    /** `UPDATE users SET active, updated_at WHERE did = ?` (the account handler). */
    method UpdateActive(did: string, active: bool, now: int)
      requires Valid()
      modifies this
      ensures Valid()
      ensures rooms == old(rooms) && messages == old(messages)
      ensures did in old(users) ==> users == old(users)[did := old(users)[did].(active := active, updatedAt := now)]
      ensures did !in old(users) ==> users == old(users)
    {
      if did in users {
        users := users[did := users[did].(active := active, updatedAt := now)];
      }
    }

    /** `DELETE FROM users WHERE did = ?`, cascading to the user's rooms and messages. */
    method DeleteAccount(did: string)
      requires Valid()
      modifies this
      ensures Valid()
      ensures Snapshot() == DeleteUser(old(Snapshot()), did)
    {
      var t := DeleteUser(Snapshot(), did);
      users, rooms, messages := t.users, t.rooms, t.messages;
    }

    // ---------------------------------------------------------------- rooms

    /** `getRoom`: the row with that uri, if any. */
    method GetRoom(uri: string) returns (r: Option<RoomRow>)
      requires Valid()
      ensures r.Some? <==> uri in rooms
      ensures r.Some? ==> r.value == rooms[uri] && r.value.uri == uri
    {
      r := if uri in rooms then Some(rooms[uri]) else None;
    }

    /**
     * `addRoom`: an existing uri writes nothing and resolves to `undefined`;
     * otherwise the row is inserted, which fails when the owner is not a user.
     * The name is never checked.
     */
    method AddRoom(input: RoomInput, now: int) returns (r: Result<RoomWrite, DbError>)
      requires Valid()
      modifies this
      ensures Valid()
      ensures users == old(users) && messages == old(messages)
      ensures input.uri in old(rooms) ==> r == Ok(Skipped) && rooms == old(rooms)
      ensures input.uri !in old(rooms) && input.owner in users ==>
                r == Ok(Inserted) && rooms == old(rooms)[input.uri := NewRoom(graphemes, input, now)]
      ensures input.uri !in old(rooms) && input.owner !in users ==>
                r == Err(ForeignKeyViolation) && rooms == old(rooms)
      ensures r.Ok? ==> InsertRoom(old(Snapshot()), graphemes, input, now) == Ok((r.value, rooms))
      ensures r.Err? ==> InsertRoom(old(Snapshot()), graphemes, input, now) == Err(r.error)
    {
      // `if (!validateRoomName) return;` never returns: the function object is truthy.
      var existing := GetRoom(input.uri);
      if existing.Some? {
        return Ok(Skipped);
      }
      if input.owner !in users {
        return Err(ForeignKeyViolation);
      }
      rooms := rooms[input.uri := NewRoom(graphemes, input, now)];
      r := Ok(Inserted);
    }

    /**
     * `updateRoom`: creates the room through `addRoom` when it is missing, then
     * rewrites it; resolves to the row found before the rewrite, or to the insert
     * result, so it is never `undefined` when it completes.
     */
    method UpdateRoom(input: RoomInput, now: int) returns (r: Result<RoomWrite, DbError>)
      requires Valid()
      modifies this
      ensures Valid()
      ensures users == old(users) && messages == old(messages)
      ensures r.Ok? ==> !r.value.Skipped?
      ensures r.Err? <==> input.uri !in old(rooms) && input.owner !in users
      ensures r.Err? ==> r.error == ForeignKeyViolation && rooms == old(rooms)
      ensures input.uri in old(rooms) ==>
                && r == Ok(Found(old(rooms)[input.uri]))
                && rooms == old(rooms)[input.uri := Rewritten(old(rooms)[input.uri], graphemes, input, now)]
      ensures input.uri !in old(rooms) && r.Ok? ==>
                && r == Ok(Inserted)
                && rooms == old(rooms)[input.uri := Rewritten(NewRoom(graphemes, input, now), graphemes, input, now)]
      ensures r.Ok? ==> RewriteRoom(old(Snapshot()), graphemes, input, now) == Ok((r.value, rooms))
      ensures r.Err? ==> RewriteRoom(old(Snapshot()), graphemes, input, now) == Err(r.error)
    {
      // `if (!validateRoomName) return;` never returns: the function object is truthy.
      // `if (a && a.uri !== room.uri) return;` never returns either: a row found by its
      // primary key carries that key, so the first lookup has no effect.
      var found := GetRoom(input.uri);
      var res: RoomWrite;
      if found.Some? {
        res := Found(found.value);
      } else {
        var added := AddRoom(input, now);
        if added.Err? {
          return Err(added.error);
        }
        res := added.value;
      }
      rooms := rooms[input.uri := Rewritten(rooms[input.uri], graphemes, input, now)];
      r := Ok(res);
    }

    /** `deleteRoom`: removes the room, if present, and the messages posted in it. */
    method DeleteRoomByUri(uri: string)
      requires Valid()
      modifies this
      ensures Valid()
      ensures Snapshot() == DeleteRoom(old(Snapshot()), uri)
    {
      var t := DeleteRoom(Snapshot(), uri);
      users, rooms, messages := t.users, t.rooms, t.messages;
    }

    // ---------------------------------------------------------------- messages

    /** `getMessage`: the row with that uri, if any. */
    method GetMessage(uri: string) returns (r: Option<MessageRow>)
      requires Valid()
      ensures r.Some? <==> uri in messages
      ensures r.Some? ==> r.value == messages[uri] && r.value.uri == uri
    {
      r := if uri in messages then Some(messages[uri]) else None;
    }

    /**
     * `addMessage`: invalid content is dropped silently; otherwise the row is
     * inserted with no existence check, so a duplicate uri violates the primary key
     * and an unknown author or room violates a foreign key.
     */
    method AddMessage(input: MessageInput, now: int) returns (r: Outcome<DbError>)
      requires Valid()
      modifies this
      ensures Valid()
      ensures users == old(users) && rooms == old(rooms)
      ensures !ValidateMessage(graphemes, input.msg.content) ==> r == Pass && messages == old(messages)
      ensures ValidateMessage(graphemes, input.msg.content) && input.uri in old(messages) ==>
                r == Fail(PrimaryKeyConflict) && messages == old(messages)
      ensures ValidateMessage(graphemes, input.msg.content) && input.uri !in old(messages) ==>
                if input.did in users && input.msg.room in rooms
                then r == Pass && messages == old(messages)[input.uri := NewMessage(input, now)]
                else r == Fail(ForeignKeyViolation) && messages == old(messages)
      ensures InsertMessage(old(Snapshot()), graphemes, input, now) == if r.Pass? then Ok(messages) else Err(r.error)
    {
      if !ValidateMessage(graphemes, input.msg.content) {
        return Pass;
      }
      if input.uri in messages {
        return Fail(PrimaryKeyConflict);
      }
      if input.did !in users || input.msg.room !in rooms {
        return Fail(ForeignKeyViolation);
      }
      messages := messages[input.uri := NewMessage(input, now)];
      r := Pass;
    }

    /**
     * `updateMessage`: invalid content is dropped silently; a missing message is
     * created through `addMessage` first; then `cid`, `content`, `facets` and
     * `updated_at` are set.
     */
    method UpdateMessage(input: MessageInput, now: int) returns (r: Outcome<DbError>)
      requires Valid()
      modifies this
      ensures Valid()
      ensures users == old(users) && rooms == old(rooms)
      ensures !ValidateMessage(graphemes, input.msg.content) ==> r == Pass && messages == old(messages)
      ensures ValidateMessage(graphemes, input.msg.content) && input.uri in old(messages) ==>
                r == Pass && messages == old(messages)[input.uri := Edited(old(messages)[input.uri], input, now)]
      ensures ValidateMessage(graphemes, input.msg.content) && input.uri !in old(messages) ==>
                if input.did in users && input.msg.room in rooms
                then r == Pass && messages == old(messages)[input.uri := Edited(NewMessage(input, now), input, now)]
                else r == Fail(ForeignKeyViolation) && messages == old(messages)
      ensures EditMessage(old(Snapshot()), graphemes, input, now) == if r.Pass? then Ok(messages) else Err(r.error)
    {
      if !ValidateMessage(graphemes, input.msg.content) {
        return Pass;
      }
      var existing := GetMessage(input.uri);
      if existing.None? {
        var added := AddMessage(input, now);
        if added.Fail? {
          return added;
        }
      }
      messages := messages[input.uri := Edited(messages[input.uri], input, now)];
      r := Pass;
    }

    /** `deleteMessage`: removes only that message and returns the room it was in, if it existed. */
    method DeleteMessage(uri: string) returns (room: Option<string>)
      requires Valid()
      modifies this
      ensures Valid()
      ensures users == old(users) && rooms == old(rooms)
      ensures messages == old(messages) - {uri}
      ensures room == if uri in old(messages) then Some(old(messages)[uri].room) else None
    {
      room := if uri in messages then Some(messages[uri].room) else None;
      messages := messages - {uri};
    }
  }
}
