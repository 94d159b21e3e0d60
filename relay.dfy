/**
 * The event handlers `startJetstream` registers (src/relay.ts): each turns one
 * upstream event into store writes and at most one broadcast envelope. A thrown
 * error is caught and logged by the handler, so it becomes a `Caught` result and
 * the writes made before it stay. The resolver's answer for the author
 * (`alsoKnownAs`, `None` when the fetch fails) and the clock are parameters.
 *
 * Each handler's effect on the tables is first defined on values (`ProfileEffect`,
 * `MessageEffect`, `RoomEffect`, `IdentityEffect`, `AccountEffect`), from the
 * store's own value-level definitions; the handler methods, which run the store's
 * methods statement by statement, are proved to have exactly that effect.
 */
module Relay {
  import opened Base
  import opened Schema
  import opened Users
  import opened Rooms
  import opened Messages
  import opened Utils
  import opened Envelopes
  import opened Database
  import opened Subscriptions

  /** How a handler ended: an envelope emitted, nothing emitted, or an error caught and logged. */
  datatype Handled = Broadcast(envelope: Envelope) | Quiet | Caught(error: DbError)

  /** What one handler leaves behind: the tables afterwards and how it ended. */
  datatype Effect = Effect(tables: Tables, handled: Handled)

  /** The statement the account handler runs. */
  datatype AccountStep = NoChange | Remove | Disable | Reactivate

  /**
   * The account handler's decision from the user looked up by `event.did`, the
   * account's `active` flag and its `status`: an unknown user changes nothing; an
   * inactive account with status "deleted" is removed, with any other non-empty
   * status disabled; an active account whose row is inactive is reactivated.
   */
  function AccountStepFor(stored: Option<UserRow>, active: bool, status: Option<string>): (step: AccountStep)
    ensures stored.None? ==> step == NoChange
    ensures step == Remove <==> stored.Some? && !active && status == Some("deleted")
    ensures step == Disable <==> stored.Some? && !active && status.Some? && status.value != "" && status.value != "deleted"
    ensures step == Reactivate <==> stored.Some? && active && !stored.value.active
  {
    if stored.None? then NoChange
    else if !active && status == Some("deleted") then Remove
    else if !active && status.Some? && status.value != "" then Disable
    else if active && !stored.value.active then Reactivate
    else NoChange
  }

  /** An inactive account without a status, or with an empty one, is left as it is. */
  lemma SilentDeactivationIgnored(stored: Option<UserRow>, status: Option<string>)
    requires status.None? || status == Some("")
    ensures AccountStepFor(stored, false, status) == NoChange
  {
  }

  // ------------------------------------------------------------ effects on values

  /**
   * `social.psky.actor.profile`: a delete clears the nickname of a known user; a
   * create or update upserts the user with the record's validated nickname. No
   * other user and no other table is touched, and nothing is emitted.
   */
  function ProfileEffect(t: Tables, graphemes: Graphemes, did: string, commit: Commit<Profile>,
                         alsoKnownAs: Option<seq<string>>, now: int): (e: Effect)
    ensures e.tables.rooms == t.rooms && e.tables.messages == t.messages
    ensures !e.handled.Broadcast?
    ensures forall d :: d != did ==> (d in e.tables.users <==> d in t.users)
    ensures forall d :: d != did && d in t.users ==> e.tables.users[d] == t.users[d]
    ensures commit.kind == Delete ==> e.handled == Quiet && (did in e.tables.users <==> did in t.users)
    ensures commit.kind == Delete && did in t.users ==>
              e.tables.users[did] == t.users[did].(nickname := None, updatedAt := now)
    ensures commit.kind != Delete ==> (e.handled.Caught? <==> did !in t.users && ResolvedHandle(alsoKnownAs).None?)
    ensures commit.kind != Delete && e.handled.Caught? ==> e.tables == t
    ensures commit.kind != Delete && !e.handled.Caught? ==>
              && e.handled == Quiet
              && did in e.tables.users
              && e.tables.users[did] == UpsertUser(t.users, graphemes, did, Some(commit.record), alsoKnownAs, now).value
              && e.tables.users[did].nickname == ValidateNickname(graphemes, commit.record.nickname)
              && e.tables.users[did].updatedAt == now
              && (did in t.users ==> e.tables.users[did].handle == t.users[did].handle
                                     && e.tables.users[did].active == t.users[did].active)
  {
    if commit.kind == Delete then
      var users := if did in t.users then t.users[did := t.users[did].(nickname := None, updatedAt := now)] else t.users;
      Effect(t.(users := users), Quiet)
    else
      match UpsertUser(t.users, graphemes, did, Some(commit.record), alsoKnownAs, now)
      case Err(err) => Effect(t, Caught(err))
      case Ok(row) => Effect(t.(users := t.users[did := row]), Quiet)
  }

  /**
   * `social.psky.chat.message`. A delete removes the row and broadcasts the event.
   * A create or update first upserts the author without a profile, which clears
   * the author's nickname; the room guard never returns (`getRoom` is not awaited
   * and a pending Promise is truthy); then the message is added (create) or updated
   * (otherwise) and the envelope is broadcast, also when the content was dropped as
   * too long. A duplicate create and a message for an unknown room end in a caught
   * constraint error.
   */
  function MessageEffect(t: Tables, graphemes: Graphemes, did: string, commit: Commit<MessageRecord>,
                         alsoKnownAs: Option<seq<string>>, now: int): (e: Effect)
    ensures var uri := AtUri(did, commit.collection, commit.rkey);
            commit.kind == Delete ==>
              && e.handled == Broadcast(MessageDeleted(MessageEvent(did, commit)))
              && e.tables == t.(messages := t.messages - {uri})
    ensures commit.kind != Delete ==> e.tables.rooms == t.rooms && !e.handled.Quiet?
    ensures commit.kind != Delete && did !in t.users && ResolvedHandle(alsoKnownAs).None? ==>
              e.handled.Caught? && e.tables == t
    ensures commit.kind != Delete && (did in t.users || ResolvedHandle(alsoKnownAs).Some?) ==>
              && did in e.tables.users
              && e.tables.users == t.users[did := e.tables.users[did]]
              && e.tables.users[did] == UpsertUser(t.users, graphemes, did, None, alsoKnownAs, now).value
              && e.tables.users[did].nickname == None
              && (did in t.users ==> e.tables.users[did].handle == t.users[did].handle
                                     && e.tables.users[did].active == t.users[did].active)
    ensures var uri := AtUri(did, commit.collection, commit.rkey);
            var msg := MessageInput(uri, commit.cid, did, commit.record);
            commit.kind != Delete && (did in t.users || ResolvedHandle(alsoKnownAs).Some?) ==>
              if !ValidateMessage(graphemes, commit.record.content) then
                e.handled.Broadcast? && e.tables.messages == t.messages
              else if commit.kind == Create && uri in t.messages then
                e.handled == Caught(PrimaryKeyConflict) && e.tables.messages == t.messages
              else if uri !in t.messages && commit.record.room !in t.rooms then
                e.handled == Caught(ForeignKeyViolation) && e.tables.messages == t.messages
              else
                && e.handled.Broadcast?
                && e.tables.messages == t.messages[uri := if commit.kind == Create then NewMessage(msg, now)
                                                          else if uri in t.messages then Edited(t.messages[uri], msg, now)
                                                          else Edited(NewMessage(msg, now), msg, now)]
    ensures commit.kind != Delete && e.handled.Broadcast? ==>
              && did in e.tables.users
              && TypeName(e.handled.envelope) == (if commit.kind == Create then "social.psky.chat.message#create"
                                                  else "social.psky.chat.message#update")
              && e.handled.envelope.body == MessageBody(did, commit.rkey, commit.cid, commit.record.content, commit.record.room,
                                                        commit.record.facets, commit.record.reply,
                                                        e.tables.users[did].handle, None, now)
  {
    var uri := AtUri(did, commit.collection, commit.rkey);
    if commit.kind == Delete then
      Effect(t.(messages := t.messages - {uri}), Broadcast(MessageDeleted(MessageEvent(did, commit))))
    else
      match UpsertUser(t.users, graphemes, did, None, alsoKnownAs, now)
      case Err(err) => Effect(t, Caught(err))
      case Ok(user) =>
        var t1 := t.(users := t.users[did := user]);
        var msg := MessageInput(uri, commit.cid, did, commit.record);
        var written := if commit.kind == Create then InsertMessage(t1, graphemes, msg, now)
                       else EditMessage(t1, graphemes, msg, now);
        match written
        case Err(err) => Effect(t1, Caught(err))
        case Ok(messages) =>
          var body := MessageBody(did, commit.rkey, commit.cid, commit.record.content, commit.record.room,
                                  commit.record.facets, commit.record.reply, user.handle, user.nickname, now);
          Effect(t1.(messages := messages), Broadcast(if commit.kind == Create then MessageCreated(body) else MessageUpdated(body)))
  }

  /**
   * `social.psky.chat.room`. A delete removes the room with its messages and
   * broadcasts the event. A create or update first upserts the owner without a
   * profile (clearing the owner's nickname), then adds (create) or updates
   * (otherwise) the room. A duplicate create writes no room and broadcasts nothing;
   * an update always broadcasts, and creates a missing room.
   */
  function RoomEffect(t: Tables, graphemes: Graphemes, did: string, commit: Commit<RoomRecord>,
                      alsoKnownAs: Option<seq<string>>, now: int): (e: Effect)
    ensures var uri := AtUri(did, commit.collection, commit.rkey);
            commit.kind == Delete ==>
              e.handled == Broadcast(RoomDeleted(RoomEvent(did, commit))) && e.tables == DeleteRoom(t, uri)
    ensures commit.kind != Delete ==> e.tables.messages == t.messages
    ensures commit.kind != Delete ==> (e.handled.Caught? <==> did !in t.users && ResolvedHandle(alsoKnownAs).None?)
    ensures commit.kind != Delete && e.handled.Caught? ==> e.tables == t
    ensures commit.kind != Delete && !e.handled.Caught? ==>
              && did in e.tables.users
              && e.tables.users == t.users[did := e.tables.users[did]]
              && e.tables.users[did] == UpsertUser(t.users, graphemes, did, None, alsoKnownAs, now).value
              && e.tables.users[did].nickname == None
    ensures var uri := AtUri(did, commit.collection, commit.rkey);
            var input := RoomInput(uri, commit.cid, did, commit.record);
            commit.kind == Create && !e.handled.Caught? ==>
              if uri in t.rooms then e.handled == Quiet && e.tables.rooms == t.rooms
              else && e.handled == Broadcast(RoomCreated(RoomEvent(did, commit)))
                   && e.tables.rooms == t.rooms[uri := NewRoom(graphemes, input, now)]
    ensures var uri := AtUri(did, commit.collection, commit.rkey);
            var input := RoomInput(uri, commit.cid, did, commit.record);
            commit.kind == Update && !e.handled.Caught? ==>
              && e.handled == Broadcast(RoomUpdated(RoomEvent(did, commit)))
              && e.tables.rooms == t.rooms[uri := if uri in t.rooms then Rewritten(t.rooms[uri], graphemes, input, now)
                                                  else NewRoom(graphemes, input, now)]
  {
    var uri := AtUri(did, commit.collection, commit.rkey);
    if commit.kind == Delete then
      Effect(DeleteRoom(t, uri), Broadcast(RoomDeleted(RoomEvent(did, commit))))
    else
      match UpsertUser(t.users, graphemes, did, None, alsoKnownAs, now)
      case Err(err) => Effect(t, Caught(err))
      case Ok(user) =>
        var t1 := t.(users := t.users[did := user]);
        var input := RoomInput(uri, commit.cid, did, commit.record);
        var written := if commit.kind == Create then InsertRoom(t1, graphemes, input, now)
                       else RewriteRoom(t1, graphemes, input, now);
        match written
        case Err(err) => Effect(t1, Caught(err))
        case Ok(w) =>
          var t2 := t1.(rooms := w.1);
          if w.0.Skipped? then Effect(t2, Quiet)
          else Effect(t2, Broadcast(if commit.kind == Create then RoomCreated(RoomEvent(did, commit))
                                    else RoomUpdated(RoomEvent(did, commit))))
  }

  /**
   * `identity`: a known user whose handle differs from the event's is updated. An
   * absent handle differs from every stored one and is left out of the UPDATE, so
   * only `updated_at` changes then. Nothing is emitted.
   */
  function IdentityEffect(t: Tables, did: string, handle: Option<string>, now: int): (e: Effect)
    ensures e.handled == Quiet
    ensures e.tables.rooms == t.rooms && e.tables.messages == t.messages
    ensures did !in t.users || handle == Some(t.users[did].handle) ==> e.tables == t
    ensures did in t.users && handle != Some(t.users[did].handle) ==>
              && did in e.tables.users
              && e.tables.users == t.users[did := e.tables.users[did]]
              && e.tables.users[did].handle == (if handle.Some? then handle.value else t.users[did].handle)
              && e.tables.users[did].updatedAt == now
              && e.tables.users[did].did == t.users[did].did
              && e.tables.users[did].active == t.users[did].active
              && e.tables.users[did].nickname == t.users[did].nickname
  {
    if did in t.users && handle != Some(t.users[did].handle) then
      var row := t.users[did];
      var updated := if handle.Some? then row.(handle := handle.value, updatedAt := now) else row.(updatedAt := now);
      Effect(t.(users := t.users[did := updated]), Quiet)
    else
      Effect(t, Quiet)
  }

  /** The users table after `UPDATE users SET active, updated_at WHERE did = ?`. */
  function SetActive(users: map<string, UserRow>, did: string, active: bool, now: int): (r: map<string, UserRow>)
    ensures r.Keys == users.Keys
    ensures forall d :: d in users && d != did ==> r[d] == users[d]
    ensures did in users ==> r[did] == users[did].(active := active, updatedAt := now)
  {
    if did in users then users[did := users[did].(active := active, updatedAt := now)] else users
  }

  /**
   * `account`: the decision is taken on the user looked up by `event.did`, but the
   * statement it runs targets `event.account.did`. Nothing is emitted.
   */
  function AccountEffect(t: Tables, did: string, accountDid: string, active: bool, status: Option<string>, now: int)
    : (e: Effect)
    ensures e.handled == Quiet
    ensures var step := AccountStepFor(if did in t.users then Some(t.users[did]) else None, active, status);
            match step
            case NoChange => e.tables == t
            case Remove => e.tables == DeleteUser(t, accountDid)
            case Disable => e.tables == t.(users := SetActive(t.users, accountDid, false, now))
            case Reactivate => e.tables == t.(users := SetActive(t.users, accountDid, true, now))
    ensures did == accountDid && did in t.users && (active || (status.Some? && status.value != "")) ==>
              did !in e.tables.users || e.tables.users[did].active == active
  {
    match AccountStepFor(if did in t.users then Some(t.users[did]) else None, active, status)
    case NoChange => Effect(t, Quiet)
    case Remove => Effect(DeleteUser(t, accountDid), Quiet)
    case Disable => Effect(t.(users := SetActive(t.users, accountDid, false, now)), Quiet)
    case Reactivate => Effect(t.(users := SetActive(t.users, accountDid, true, now)), Quiet)
  }

  /**
   * One event through the handler registered for it; events of other collections
   * have no handler. Only message and room events emit, and only profile, message
   * and room events can fail.
   */
  function EventEffect(t: Tables, graphemes: Graphemes, event: Event, alsoKnownAs: Option<seq<string>>, now: int)
    : (e: Effect)
    ensures e.handled.Broadcast? ==> event.MessageEvent? || event.RoomEvent?
    ensures e.handled.Caught? ==> event.ProfileEvent? || event.MessageEvent? || event.RoomEvent?
    ensures event.OtherEvent? ==> e == Effect(t, Quiet)
    ensures event.ProfileEvent? ==> e == ProfileEffect(t, graphemes, event.did, event.profileCommit, alsoKnownAs, now)
    ensures event.MessageEvent? ==> e == MessageEffect(t, graphemes, event.did, event.messageCommit, alsoKnownAs, now)
    ensures event.RoomEvent? ==> e == RoomEffect(t, graphemes, event.did, event.roomCommit, alsoKnownAs, now)
    ensures event.IdentityEvent? ==> e == IdentityEffect(t, event.did, event.handle, now)
    ensures event.AccountEvent? ==>
              e == AccountEffect(t, event.did, event.accountDid, event.active, event.status, now)
  {
    match event
    case ProfileEvent(did, commit) => ProfileEffect(t, graphemes, did, commit, alsoKnownAs, now)
    case MessageEvent(did, commit) => MessageEffect(t, graphemes, did, commit, alsoKnownAs, now)
    case RoomEvent(did, commit) => RoomEffect(t, graphemes, did, commit, alsoKnownAs, now)
    case IdentityEvent(did, handle) => IdentityEffect(t, did, handle, now)
    case AccountEvent(did, accountDid, active, status) => AccountEffect(t, did, accountDid, active, status, now)
    case OtherEvent(_) => Effect(t, Quiet)
  }

  // ------------------------------------------------------------ the handlers

  /** `social.psky.actor.profile`, run on the store. */
  method OnProfile(store: Store, did: string, commit: Commit<Profile>, alsoKnownAs: Option<seq<string>>, now: int)
    returns (h: Handled)
    requires store.Valid()
    modifies store
    ensures store.Valid()
    ensures Effect(store.Snapshot(), h) == ProfileEffect(old(store.Snapshot()), store.graphemes, did, commit, alsoKnownAs, now)
  {
    if commit.kind == Delete {
      store.DeleteProfile(did, now);
      return Quiet;
    }
    var user := store.UpdateUser(did, Some(commit.record), alsoKnownAs, now);
    h := if user.Err? then Caught(user.error) else Quiet;
  }

  /** `social.psky.chat.message`, run on the store; an envelope goes to the hub's stream. */
  method OnMessage(store: Store, hub: Hub, did: string, commit: Commit<MessageRecord>,
                   alsoKnownAs: Option<seq<string>>, now: int)
    returns (h: Handled)
    requires store.Valid() && hub.Valid()
    modifies store, hub
    ensures store.Valid() && hub.Valid()
    ensures hub.ipSet == old(hub.ipSet) && hub.sockets == old(hub.sockets) && hub.listeners == old(hub.listeners)
    ensures hub.stream == old(hub.stream) + (if h.Broadcast? then [h.envelope] else [])
    ensures Effect(store.Snapshot(), h) == MessageEffect(old(store.Snapshot()), store.graphemes, did, commit, alsoKnownAs, now)
  {
    var uri := AtUri(did, commit.collection, commit.rkey);
    if commit.kind == Delete {
      var _ := store.DeleteMessage(uri);
      var env := MessageDeleted(MessageEvent(did, commit));
      hub.Publish(env);
      return Broadcast(env);
    }
    var user := store.UpdateUser(did, None, alsoKnownAs, now);
    if user.Err? {
      return Caught(user.error);
    }
    // `if (!user) return;` and `if (!room) return;` never return: the row read back
    // is an object, and the un-awaited `getRoom` yields a Promise.
    var msg := MessageInput(uri, commit.cid, did, commit.record);
    var out: Outcome<DbError>;
    if commit.kind == Create {
      out := store.AddMessage(msg, now);
    } else {
      out := store.UpdateMessage(msg, now);
    }
    if out.Fail? {
      return Caught(out.error);
    }
    var body := MessageBody(did, commit.rkey, commit.cid, commit.record.content, commit.record.room,
                            commit.record.facets, commit.record.reply, user.value.handle, user.value.nickname, now);
    var env := if commit.kind == Create then MessageCreated(body) else MessageUpdated(body);
    hub.Publish(env);
    h := Broadcast(env);
  }

  /** `social.psky.chat.room`, run on the store; an envelope goes to the hub's stream. */
  method OnRoom(store: Store, hub: Hub, did: string, commit: Commit<RoomRecord>,
                alsoKnownAs: Option<seq<string>>, now: int)
    returns (h: Handled)
    requires store.Valid() && hub.Valid()
    modifies store, hub
    ensures store.Valid() && hub.Valid()
    ensures hub.ipSet == old(hub.ipSet) && hub.sockets == old(hub.sockets) && hub.listeners == old(hub.listeners)
    ensures hub.stream == old(hub.stream) + (if h.Broadcast? then [h.envelope] else [])
    ensures Effect(store.Snapshot(), h) == RoomEffect(old(store.Snapshot()), store.graphemes, did, commit, alsoKnownAs, now)
  {
    var uri := AtUri(did, commit.collection, commit.rkey);
    if commit.kind == Delete {
      store.DeleteRoomByUri(uri);
      var env := RoomDeleted(RoomEvent(did, commit));
      hub.Publish(env);
      return Broadcast(env);
    }
    var user := store.UpdateUser(did, None, alsoKnownAs, now);
    if user.Err? {
      return Caught(user.error);
    }
    var room := RoomInput(uri, commit.cid, did, commit.record);
    var res: Result<RoomWrite, DbError>;
    if commit.kind == Create {
      res := store.AddRoom(room, now);
    } else {
      res := store.UpdateRoom(room, now);
    }
    // The owner was just upserted, so the insert cannot break the foreign key.
    match res {
      case Err(e) => return Caught(e);
      case Ok(write) =>
        if write.Skipped? {
          return Quiet;
        }
    }
    var env := if commit.kind == Create then RoomCreated(RoomEvent(did, commit)) else RoomUpdated(RoomEvent(did, commit));
    hub.Publish(env);
    h := Broadcast(env);
  }

  /** `identity`, run on the store. */
  method OnIdentity(store: Store, did: string, handle: Option<string>, now: int)
    requires store.Valid()
    modifies store
    ensures store.Valid()
    ensures store.Snapshot() == IdentityEffect(old(store.Snapshot()), did, handle, now).tables
  {
    var user := store.GetUser(did);
    if user.Some? && handle != Some(user.value.handle) {
      store.UpdateHandle(did, handle, now);
    }
  }

  /** `account`, run on the store. */
  method OnAccount(store: Store, did: string, accountDid: string, active: bool, status: Option<string>, now: int)
    requires store.Valid()
    modifies store
    ensures store.Valid()
    ensures store.Snapshot() == AccountEffect(old(store.Snapshot()), did, accountDid, active, status, now).tables
  {
    var user := store.GetUser(did);
    match AccountStepFor(user, active, status)
    case NoChange =>
    case Remove => store.DeleteAccount(accountDid);
    case Disable => store.UpdateActive(accountDid, false, now);
    case Reactivate => store.UpdateActive(accountDid, true, now);
  }

  /**
   * One event through its handler, as one step: the handler runs to completion on
   * the state the previous event left behind (see README, "Left out", on the
   * interleaving of handlers in the source).
   */
  method HandleEvent(store: Store, hub: Hub, event: Event, alsoKnownAs: Option<seq<string>>, now: int)
    returns (h: Handled)
    requires store.Valid() && hub.Valid()
    modifies store, hub
    ensures store.Valid() && hub.Valid()
    ensures hub.ipSet == old(hub.ipSet) && hub.sockets == old(hub.sockets) && hub.listeners == old(hub.listeners)
    ensures hub.stream == old(hub.stream) + (if h.Broadcast? then [h.envelope] else [])
    ensures Effect(store.Snapshot(), h) == EventEffect(old(store.Snapshot()), store.graphemes, event, alsoKnownAs, now)
  {
    match event
    case ProfileEvent(did, commit) =>
      h := OnProfile(store, did, commit, alsoKnownAs, now);
    case MessageEvent(did, commit) =>
      h := OnMessage(store, hub, did, commit, alsoKnownAs, now);
    case RoomEvent(did, commit) =>
      h := OnRoom(store, hub, did, commit, alsoKnownAs, now);
    case IdentityEvent(did, handle) =>
      OnIdentity(store, did, handle, now);
      h := Quiet;
    case AccountEvent(did, accountDid, active, status) =>
      OnAccount(store, did, accountDid, active, status, now);
      h := Quiet;
    case OtherEvent(_) =>
      h := Quiet;
  }
}
