/**
 * The subscriber hub of src/routes.ts: the per-ip session counter `ipSet`, the
 * `serverState` presence envelope, the websocket server's "message" stream, and
 * the per-socket callback that forwards stream data through the `wantedRooms`
 * filter. Broadcasting is appending to `stream`; what a socket receives is its
 * greeting followed by the filtered part of the stream emitted while it was open.
 */
module Subscriptions {
  import opened Base
  import opened Envelopes

  /**
   * One `/subscribe` connection: the client ip, its `wantedRooms`, the session count
   * it was greeted with, and the stream positions between which it was open
   * (`until` is `None` while it still is).
   */
  datatype Socket = Socket(ip: string, wanted: Option<seq<string>>, greeting: nat, from: nat, until: Option<nat>)
  {
    predicate Open()
    {
      until.None?
    }
  }

  /**
   * The callback's test: `!wantedRooms || wantedRooms.includes(JSON.parse(data).room)`.
   * An empty `wantedRooms` array is truthy, so it lets nothing through.
   */
  predicate Forwards(wanted: Option<seq<string>>, e: Envelope)
  {
    wanted.None? || (RoomOf(e).Some? && RoomOf(e).value in wanted.value)
  }

  /** The part of `xs` a callback with filter `wanted` forwards, in stream order. */
  function Delivered(wanted: Option<seq<string>>, xs: seq<Envelope>): (ys: seq<Envelope>)
    ensures |ys| <= |xs|
    ensures forall k :: 0 <= k < |ys| ==> ys[k] in xs && Forwards(wanted, ys[k])
    ensures forall e :: e in xs && Forwards(wanted, e) ==> e in ys
  {
    if xs == [] then []
    else
      var init := xs[..|xs| - 1];
      assert xs == init + [xs[|xs| - 1]];
      Delivered(wanted, init) + (if Forwards(wanted, xs[|xs| - 1]) then [xs[|xs| - 1]] else [])
  }

  /** Filtering distributes over concatenation of stream segments. */
  lemma {:induction false} DeliveredAppend(wanted: Option<seq<string>>, xs: seq<Envelope>, ys: seq<Envelope>)
    ensures Delivered(wanted, xs + ys) == Delivered(wanted, xs) + Delivered(wanted, ys)
    decreases |ys|
  {
    if ys == [] {
      assert xs + ys == xs;
    } else {
      var init := ys[..|ys| - 1];
      var e := ys[|ys| - 1];
      assert (xs + ys)[..|xs + ys| - 1] == xs + init;
      DeliveredAppend(wanted, xs, init);
    }
  }

  /** Without a filter every envelope is forwarded. */
  lemma {:induction false} UnfilteredGetsAll(xs: seq<Envelope>)
    ensures Delivered(None, xs) == xs
    decreases |xs|
  {
    if xs != [] {
      UnfilteredGetsAll(xs[..|xs| - 1]);
      assert xs == xs[..|xs| - 1] + [xs[|xs| - 1]];
    }
  }

  /** A subscriber with a room filter never receives a presence envelope from the stream. */
  lemma FilteredSkipsPresence(rooms: seq<string>, xs: seq<Envelope>)
    ensures forall k :: 0 <= k < |Delivered(Some(rooms), xs)| ==> !Delivered(Some(rooms), xs)[k].ServerState?
  {
  }

  /** The number of open sockets from `ip`. */
  function OpenCount(sockets: seq<Socket>, ip: string): nat
  {
    if sockets == [] then 0
    else
      var last := sockets[|sockets| - 1];
      OpenCount(sockets[..|sockets| - 1], ip) + (if last.Open() && last.ip == ip then 1 else 0)
  }

  /** The ips with at least one open socket. */
  function OpenIps(sockets: seq<Socket>): set<string>
  {
    set i | 0 <= i < |sockets| && sockets[i].Open() :: sockets[i].ip
  }

  lemma OpenCountSnoc(sockets: seq<Socket>, s: Socket, ip: string)
    ensures OpenCount(sockets + [s], ip) == OpenCount(sockets, ip) + (if s.Open() && s.ip == ip then 1 else 0)
  {
    assert (sockets + [s])[..|sockets|] == sockets;
  }

  /** Closing one open socket lowers the count of its own ip by one and no other. */
  lemma {:induction false} OpenCountClose(sockets: seq<Socket>, id: nat, at: nat, ip: string)
    requires id < |sockets| && sockets[id].Open()
    ensures OpenCount(sockets[id := sockets[id].(until := Some(at))], ip) + (if sockets[id].ip == ip then 1 else 0)
            == OpenCount(sockets, ip)
    decreases |sockets|
  {
    var closed := sockets[id := sockets[id].(until := Some(at))];
    var n := |sockets| - 1;
    assert closed[..n] == if id < n then sockets[..n][id := sockets[id].(until := Some(at))] else sockets[..n];
    if id < n {
      OpenCountClose(sockets[..n], id, at, ip);
    }
  }

  /** An ip has a positive open count exactly when it has an open socket. */
  lemma {:induction false} OpenCountPositive(sockets: seq<Socket>, ip: string)
    ensures OpenCount(sockets, ip) > 0 <==> ip in OpenIps(sockets)
    decreases |sockets|
  {
    if sockets != [] {
      var n := |sockets| - 1;
      OpenCountPositive(sockets[..n], ip);
      assert OpenIps(sockets) == OpenIps(sockets[..n]) + (if sockets[n].Open() then {sockets[n].ip} else {});
    }
  }

  /** The socket's positions lie within `stream`. */
  predicate Within(s: Socket, stream: seq<Envelope>)
  {
    s.from <= |stream| && (s.until.Some? ==> s.from <= s.until.value <= |stream|)
  }

  /** What a socket has been sent: its greeting, then the filtered stream while it was open. */
  function Received(s: Socket, stream: seq<Envelope>): (r: seq<Envelope>)
    requires Within(s, stream)
    ensures |r| >= 1 && r[0] == ServerState(s.greeting)
  {
    var end := if s.Open() then |stream| else s.until.value;
    [ServerState(s.greeting)] + Delivered(s.wanted, stream[s.from..end])
  }

  /** Appending to the stream reaches an open socket through its filter and a closed one not at all. */
  lemma ReceivedAppend(s: Socket, xs: seq<Envelope>, added: seq<Envelope>)
    requires Within(s, xs)
    ensures Within(s, xs + added)
    ensures Received(s, xs + added) == Received(s, xs) + (if s.Open() then Delivered(s.wanted, added) else [])
  {
    var ys := xs + added;
    if s.Open() {
      assert ys[s.from..|ys|] == xs[s.from..|xs|] + added;
      DeliveredAppend(s.wanted, xs[s.from..|xs|], added);
    } else {
      assert ys[s.from..s.until.value] == xs[s.from..s.until.value];
    }
  }

  /** A socket closed at the current end of the stream keeps what it had and gets nothing later. */
  lemma ReceivedClosed(s: Socket, xs: seq<Envelope>, added: seq<Envelope>)
    requires s.Open() && Within(s, xs)
    ensures Within(s.(until := Some(|xs|)), xs + added)
    ensures Received(s.(until := Some(|xs|)), xs + added) == Received(s, xs)
  {
    assert (xs + added)[s.from..|xs|] == xs[s.from..|xs|];
  }

  /** `ReceivedAppend` for every socket of `sockets` except the one at `skip`. */
  lemma AllReceivedAppend(sockets: seq<Socket>, skip: int, xs: seq<Envelope>, added: seq<Envelope>)
    requires forall i :: 0 <= i < |sockets| ==> Within(sockets[i], xs)
    ensures forall i :: 0 <= i < |sockets| && i != skip ==>
              && Within(sockets[i], xs + added)
              && Received(sockets[i], xs + added)
                 == Received(sockets[i], xs) + (if sockets[i].Open() then Delivered(sockets[i].wanted, added) else [])
  {
    forall i | 0 <= i < |sockets| && i != skip
      ensures Within(sockets[i], xs + added)
      ensures Received(sockets[i], xs + added)
              == Received(sockets[i], xs) + (if sockets[i].Open() then Delivered(sockets[i].wanted, added) else [])
    {
      ReceivedAppend(sockets[i], xs, added);
    }
  }

  /** `counts` holds exactly the ips with an open socket, each with its open count. */
  ghost predicate Counted(counts: map<string, nat>, sockets: seq<Socket>)
  {
    && (forall ip :: ip in counts <==> OpenCount(sockets, ip) > 0)
    && (forall ip :: ip in counts ==> counts[ip] == OpenCount(sockets, ip))
  }

  /** The keys of a faithful counter are exactly the ips with an open connection. */
  lemma CountedKeys(counts: map<string, nat>, sockets: seq<Socket>)
    requires Counted(counts, sockets)
    ensures counts.Keys == OpenIps(sockets)
    ensures forall ip :: ip in counts ==> counts[ip] > 0
  {
    forall ip ensures ip in counts <==> ip in OpenIps(sockets) {
      OpenCountPositive(sockets, ip);
    }
  }

  /** The counter after a new connection from `ip`. */
  function Incremented(counts: map<string, nat>, ip: string): map<string, nat>
  {
    counts[ip := if ip in counts then counts[ip] + 1 else 1]
  }

  /** The counter after a connection from `ip` closes: decremented, and deleted at zero. */
  function Decremented(counts: map<string, nat>, ip: string): map<string, nat>
    requires ip in counts
  {
    if counts[ip] <= 1 then counts - {ip} else counts[ip := counts[ip] - 1]
  }

  /**
   * A connection adds one to its ip's count, starting from zero for a new ip; a
   * close takes one off and removes the ip when its count reaches zero. No other
   * ip's count changes.
   */
  lemma CounterSteps(counts: map<string, nat>, ip: string)
    ensures Incremented(counts, ip).Keys == counts.Keys + {ip}
    ensures Incremented(counts, ip)[ip] == (if ip in counts then counts[ip] else 0) + 1
    ensures ip in counts ==> (ip in Decremented(counts, ip) <==> counts[ip] > 1)
    ensures ip in counts && ip in Decremented(counts, ip) ==> Decremented(counts, ip)[ip] == counts[ip] - 1
    ensures forall x :: x in counts && x != ip ==> x in Incremented(counts, ip) && Incremented(counts, ip)[x] == counts[x]
    ensures ip in counts ==>
              forall x :: x != ip ==> (x in Decremented(counts, ip) <==> x in counts)
                                      && (x in counts ==> Decremented(counts, ip)[x] == counts[x])
  {
  }

  /** Opening a socket keeps the counter faithful once its ip is incremented. */
  lemma CountedOpen(counts: map<string, nat>, sockets: seq<Socket>, s: Socket)
    requires Counted(counts, sockets) && s.Open()
    ensures Counted(Incremented(counts, s.ip), sockets + [s])
  {
    forall x ensures OpenCount(sockets + [s], x) == OpenCount(sockets, x) + (if x == s.ip then 1 else 0) {
      OpenCountSnoc(sockets, s, x);
    }
  }

  /** Closing an open socket keeps the counter faithful once its ip is decremented. */
  lemma CountedClose(counts: map<string, nat>, sockets: seq<Socket>, id: nat, at: nat)
    requires Counted(counts, sockets) && id < |sockets| && sockets[id].Open()
    ensures sockets[id].ip in counts && counts[sockets[id].ip] >= 1
    ensures Counted(Decremented(counts, sockets[id].ip), sockets[id := sockets[id].(until := Some(at))])
  {
    forall x ensures OpenCount(sockets[id := sockets[id].(until := Some(at))], x) + (if x == sockets[id].ip then 1 else 0)
                     == OpenCount(sockets, x) {
      OpenCountClose(sockets, id, at, x);
    }
  }

  class Hub {
    /** `ipSet`: open connections per client ip. */
    var ipSet: map<string, nat>
    /** Every connection ever opened, in order. */
    var sockets: seq<Socket>
    /** Everything emitted on the "message" channel, in order. */
    var stream: seq<Envelope>
    /** Callbacks registered on the "message" channel. */
    var listeners: nat

    /**
     * `ipSet` counts the open sockets per ip; every socket ever opened still has its
     * callback registered; socket positions lie within the stream.
     */
    ghost predicate Valid()
      reads this
    {
      && Counted(ipSet, sockets)
      && listeners == |sockets|
      && (forall i :: 0 <= i < |sockets| ==> Within(sockets[i], stream))
    }

    constructor ()
      ensures Valid()
      ensures ipSet == map[] && sockets == [] && stream == [] && listeners == 0
    {
      ipSet, sockets, stream, listeners := map[], [], [], 0;
    }

    /**
     * A new `/subscribe` connection. The first connection from an ip adds it to
     * `ipSet` and emits the new key count on the stream, before the new socket's
     * callback is registered; every connection is then sent the key count directly.
     */
    method Open(ip: string, wanted: Option<seq<string>>) returns (id: nat, greeting: Envelope)
      requires Valid()
      modifies this
      ensures Valid()
      ensures ipSet == Incremented(old(ipSet), ip)
      ensures stream == old(stream) + (if ip in old(ipSet) then [] else [ServerState(|ipSet|)])
      ensures greeting == ServerState(|ipSet|)
      ensures id == old(|sockets|) && sockets == old(sockets) + [Socket(ip, wanted, |ipSet|, |stream|, None)]
      ensures listeners == old(listeners) + 1
      ensures Received(sockets[id], stream) == [greeting]
      ensures forall i :: 0 <= i < id ==>
                Received(sockets[i], stream)
                == Received(old(sockets[i]), old(stream))
                   + (if sockets[i].Open() then Delivered(sockets[i].wanted, stream[old(|stream|)..]) else [])
    {
      var before := stream;
      if ip !in ipSet || ipSet[ip] == 0 {
        ipSet := ipSet[ip := 1];
        stream := stream + [ServerState(|ipSet|)];
      } else {
        ipSet := ipSet[ip := ipSet[ip] + 1];
      }
      greeting := ServerState(|ipSet|);
      id := |sockets|;
      var s := Socket(ip, wanted, |ipSet|, |stream|, None);
      CountedOpen(old(ipSet), sockets, s);
      var added := stream[|before|..];
      assert stream == before + added;
      AllReceivedAppend(sockets, -1, before, added);
      sockets := sockets + [s];
      listeners := listeners + 1;
      assert stream[|stream|..|stream|] == [];
    }

    /**
     * A connection closes. `removeListener("data", callback)` removes nothing, since
     * the callback listens on "message", so the listener count stays. The ip's count
     * drops; at zero the ip leaves `ipSet` and the new key count is emitted.
     */
    method Close(id: nat)
      requires Valid() && id < |sockets| && sockets[id].Open()
      modifies this
      ensures Valid()
      ensures old(sockets[id].ip) in old(ipSet)
      ensures listeners == old(listeners)
      ensures sockets == old(sockets)[id := old(sockets[id]).(until := Some(old(|stream|)))]
      ensures ipSet == Decremented(old(ipSet), old(sockets[id].ip))
      ensures stream == old(stream) + (if old(sockets[id].ip) in ipSet then [] else [ServerState(|ipSet|)])
      ensures Received(sockets[id], stream) == Received(old(sockets[id]), old(stream))
      ensures forall i :: 0 <= i < |sockets| && i != id ==>
                Received(sockets[i], stream)
                == Received(old(sockets[i]), old(stream))
                   + (if sockets[i].Open() then Delivered(sockets[i].wanted, stream[old(|stream|)..]) else [])
    {
      var ip := sockets[id].ip;
      var before := stream;
      var closed := sockets[id].(until := Some(|stream|));
      CountedClose(ipSet, sockets, id, |stream|);
      var old_sockets := sockets;
      sockets := sockets[id := closed];
      ipSet := ipSet[ip := ipSet[ip] - 1];
      if ipSet[ip] == 0 {
        ipSet := ipSet - {ip};
        stream := stream + [ServerState(|ipSet|)];
      }
      assert ipSet == Decremented(old(ipSet), ip);
      var added := stream[|before|..];
      assert stream == before + added;
      ReceivedClosed(old_sockets[id], before, added);
      AllReceivedAppend(old_sockets, id, before, added);
    }

    /** `websocketServer.emit("message", …)`: the envelope goes to every open socket whose filter lets it through. */
    method Publish(e: Envelope)
      requires Valid()
      modifies this
      ensures Valid()
      ensures ipSet == old(ipSet) && sockets == old(sockets) && listeners == old(listeners)
      ensures stream == old(stream) + [e]
      ensures forall i :: 0 <= i < |sockets| ==>
                Received(sockets[i], stream)
                == Received(sockets[i], old(stream)) + (if sockets[i].Open() && Forwards(sockets[i].wanted, e) then [e] else [])
    {
      var before := stream;
      stream := stream + [e];
      assert Delivered(None, [e]) == [e] by { assert [e][..0] == []; }
      forall i | 0 <= i < |sockets|
        ensures Within(sockets[i], stream)
        ensures Received(sockets[i], stream) == Received(sockets[i], before) + (if sockets[i].Open() && Forwards(sockets[i].wanted, e) then [e] else [])
      {
        ReceivedAppend(sockets[i], before, [e]);
        assert [e][..0] == [];
      }
    }
  }
}
