/**
 * `GET /xrpc/social.psky.chat.getMessages` (src/routes.ts): the messages joined
 * with their authors, restricted to active authors and, when a room uri is given,
 * to that room; newest first by `indexed_at`; `cursor` rows skipped and at most
 * `limit` returned; each row mapped to its output shape.
 *
 * The rows are taken in the order the database scans them (`rows`); rows with
 * equal `indexed_at` keep that order, which SQL leaves unspecified.
 */
module Listing {
  import opened Base
  import opened Text
  import opened Schema
  import opened Envelopes
  import opened QuerySchemas

  /** One element of the response's `messages`; absent fields are `None`. */
  datatype MessageView = MessageView(
    did: string,
    rkey: string,
    cid: string,
    room: string,
    content: string,
    facets: Option<string>,
    reply: Option<string>,
    handle: string,
    nickname: Option<string>,
    indexedAt: int,
    updatedAt: Option<int>)

  /** The response body. */
  datatype MessagePage = MessagePage(cursor: nat, messages: seq<MessageView>)

  /**
   * The join with `users` and the two WHERE clauses; `room` is the query's uri
   * when it is truthy (`if (uri)`).
   */
  predicate Listed(t: Tables, room: Option<string>, m: MessageRow)
  {
    && m.did in t.users
    && t.users[m.did].active
    && (room.Some? ==> m.room == room.value)
  }

  /** The listed rows of `rows`, in scan order. */
  function Eligible(t: Tables, room: Option<string>, rows: seq<MessageRow>): (r: seq<MessageRow>)
    ensures forall m :: m in r <==> m in rows && Listed(t, room, m)
    ensures |r| <= |rows|
    ensures multiset(r) <= multiset(rows)
  {
    if rows == [] then []
    else
      var rest := Eligible(t, room, rows[1..]);
      assert rows == [rows[0]] + rows[1..];
      assert multiset(rows) == multiset{rows[0]} + multiset(rows[1..]);
      if Listed(t, room, rows[0]) then [rows[0]] + rest else rest
  }

  /** No row occurs twice. */
  ghost predicate Distinct(xs: seq<MessageRow>)
  {
    forall m :: multiset(xs)[m] <= 1
  }

  /** `rows` is a scan of the messages table: every stored message, each exactly once. */
  ghost predicate ScanOf(t: Tables, rows: seq<MessageRow>)
  {
    Distinct(rows) && forall m :: m in rows <==> m in t.messages.Values
  }

  /** `ORDER BY indexed_at DESC`. */
  predicate NewestFirst(xs: seq<MessageRow>)
  {
    forall i, j :: 0 <= i < j < |xs| ==> xs[i].indexedAt >= xs[j].indexedAt
  }

  /** A row no older than the head of an ordered sequence can go in front of it. */
  lemma ConsNewestFirst(x: MessageRow, ys: seq<MessageRow>)
    requires NewestFirst(ys)
    requires |ys| > 0 ==> x.indexedAt >= ys[0].indexedAt
    ensures NewestFirst([x] + ys)
  {
    var r := [x] + ys;
    forall i, j | 0 <= i < j < |r| ensures r[i].indexedAt >= r[j].indexedAt {
      assert r[j] == ys[j - 1];
      if i > 0 {
        assert r[i] == ys[i - 1];
      }
    }
  }

  /** `m` placed in front of the first row that is not newer than it. */
  function Insert(m: MessageRow, xs: seq<MessageRow>): (r: seq<MessageRow>)
    requires NewestFirst(xs)
    ensures |r| == |xs| + 1
    ensures NewestFirst(r)
    ensures multiset(r) == multiset(xs) + multiset{m}
    ensures r[0] == m || (|xs| > 0 && r[0] == xs[0])
  {
    if xs == [] || m.indexedAt >= xs[0].indexedAt then
      ConsNewestFirst(m, xs);
      [m] + xs
    else
      assert NewestFirst(xs[1..]) by {
        forall i, j | 0 <= i < j < |xs| - 1 ensures xs[1..][i].indexedAt >= xs[1..][j].indexedAt {
          assert xs[1..][i] == xs[i + 1] && xs[1..][j] == xs[j + 1];
        }
      }
      var rest := Insert(m, xs[1..]);
      assert xs == [xs[0]] + xs[1..];
      assert multiset([xs[0]] + rest) == multiset{xs[0]} + multiset(rest);
      assert rest[0] == m || (|xs| > 1 && rest[0] == xs[1]);
      ConsNewestFirst(xs[0], rest);
      [xs[0]] + rest
  }

  /** The rows newest first: a permutation of `xs` ordered by `indexed_at` descending. */
  function SortNewestFirst(xs: seq<MessageRow>): (r: seq<MessageRow>)
    ensures NewestFirst(r)
    ensures multiset(r) == multiset(xs)
  {
    if xs == [] then []
    else
      assert xs == [xs[0]] + xs[1..];
      Insert(xs[0], SortNewestFirst(xs[1..]))
  }

  /** `LIMIT limit OFFSET offset` on an ordered result. */
  function Window<T>(xs: seq<T>, offset: nat, limit: nat): (r: seq<T>)
    ensures |r| <= limit
    ensures offset <= |xs| ==> |r| == if offset + limit <= |xs| then limit else |xs| - offset
    ensures offset >= |xs| ==> r == []
    ensures forall k :: 0 <= k < |r| ==> offset + k < |xs| && r[k] == xs[offset + k]
  {
    if offset >= |xs| then []
    else if offset + limit <= |xs| then xs[offset..offset + limit]
    else xs[offset..]
  }

  /**
   * Following the cursor returned with a page continues exactly where the page
   * ended: two consecutive pages are the window of their combined size.
   */
  lemma {:induction false} NextPageContinues<T>(xs: seq<T>, offset: nat, limit: nat, nextLimit: nat)
    ensures var page := Window(xs, offset, limit);
            page + Window(xs, offset + |page|, nextLimit) == Window(xs, offset, limit + nextLimit)
  {
    var page := Window(xs, offset, limit);
    var next := Window(xs, offset + |page|, nextLimit);
    var whole := Window(xs, offset, limit + nextLimit);
    if offset < |xs| && |page| == limit {
      assert |page + next| == |whole|;
      forall k | 0 <= k < |whole| ensures (page + next)[k] == whole[k] {
        if k >= |page| {
          assert (page + next)[k] == next[k - |page|];
        }
      }
    } else {
      assert next == [];
      assert |page| == |whole|;
    }
  }

  /**
   * The `facets` output: `rec.facets && JSON.stringify(rec.facets) !== "null"`. The
   * column holds text, whose JSON encoding is quoted, so the second test never
   * fails: only NULL and the empty text are dropped, and the stored text "null"
   * is returned as it is.
   */
  lemma NullTextFacetsReturned(m: MessageRow, u: UserRow)
    ensures View(m, u).facets == if m.facets == Some("") then None else m.facets
    ensures m.facets == Some("null") ==> View(m, u).facets == Some("null")
  {
  }

  /** `rec.uri.split("/").pop()`. */
  function RkeyOf(uri: string): (rkey: string)
    ensures !Includes(rkey, "/")
  {
    Last(Split(uri, "/"))
  }

  /** The rkey read back from a record uri the relay built is the commit's rkey. */
  lemma RkeyOfAtUri(did: string, collection: string, rkey: string)
    requires '/' !in rkey
    ensures RkeyOf(AtUri(did, collection, rkey)) == rkey
  {
    assert AtUri(did, collection, rkey) == ("at://" + did + "/" + collection) + ['/'] + rkey;
    SplitLast("at://" + did + "/" + collection, '/', rkey);
  }

  /** One row of the join mapped to its output: NULL columns become absent fields. */
  function View(m: MessageRow, u: UserRow): (v: MessageView)
    ensures v.did == m.did && v.cid == m.cid && v.room == m.room && v.content == m.content
    ensures v.facets == Truthy(m.facets) && v.reply == m.reply && v.updatedAt == m.updatedAt
    ensures v.handle == u.handle && v.nickname == u.nickname && v.indexedAt == m.indexedAt
    ensures v.rkey == RkeyOf(m.uri)
  {
    MessageView(m.did, RkeyOf(m.uri), m.cid, m.room, m.content, Truthy(m.facets), m.reply,
                u.handle, u.nickname, m.indexedAt, m.updatedAt)
  }

  function Views(t: Tables, rows: seq<MessageRow>): (vs: seq<MessageView>)
    requires forall k :: 0 <= k < |rows| ==> rows[k].did in t.users
    ensures |vs| == |rows|
    ensures forall k :: 0 <= k < |rows| ==> vs[k] == View(rows[k], t.users[rows[k].did])
  {
    seq(|rows|, k requires 0 <= k < |rows| => View(rows[k], t.users[rows[k].did]))
  }

  /** The ordered, filtered rows a query pages through. */
  function Ordered(t: Tables, uri: Option<string>, rows: seq<MessageRow>): (r: seq<MessageRow>)
    ensures NewestFirst(r)
    ensures multiset(r) == multiset(Eligible(t, Truthy(uri), rows))
    ensures forall m :: m in r <==> m in rows && Listed(t, Truthy(uri), m)
    ensures forall k :: 0 <= k < |r| ==> Listed(t, Truthy(uri), r[k])
    ensures |r| <= |rows|
  {
    var e := Eligible(t, Truthy(uri), rows);
    var s := SortNewestFirst(e);
    assert forall m :: m in s <==> m in e by {
      forall m ensures m in s <==> m in e { assert m in multiset(s) <==> m in multiset(e); }
    }
    assert |s| == |multiset(s)| == |multiset(e)| == |e|;
    s
  }

  /** The rows of `all` at `offset`, at most `limit` of them, each mapped with its author. */
  function PageOf(t: Tables, all: seq<MessageRow>, offset: nat, limit: nat): (vs: seq<MessageView>)
    requires forall k :: 0 <= k < |all| ==> all[k].did in t.users
    ensures |vs| == if offset >= |all| then 0 else if offset + limit <= |all| then limit else |all| - offset
    ensures forall k :: 0 <= k < |vs| ==>
              offset + k < |all| && vs[k] == View(all[offset + k], t.users[all[offset + k].did])
  {
    Views(t, Window(all, offset, limit))
  }

  /**
   * The response: the window of the ordered rows at `cursor ?? 0` of size `limit`,
   * each row mapped with its author, and the next cursor, which is the offset plus
   * the number of rows returned.
   */
  function GetMessages(t: Tables, rows: seq<MessageRow>, q: GetMessagesQuery): (page: MessagePage)
    ensures var offset := if q.cursor.Some? then q.cursor.value else 0;
            page.cursor == offset + |page.messages|
    ensures |page.messages| <= q.limit
    ensures var offset := if q.cursor.Some? then q.cursor.value else 0;
            page.messages == PageOf(t, Ordered(t, q.uri, rows), offset, q.limit)
  {
    var offset := if q.cursor.Some? then q.cursor.value else 0;
    var all := Ordered(t, q.uri, rows);
    var vs := PageOf(t, all, offset, q.limit);
    MessagePage(offset + |vs|, vs)
  }

  /**
   * When `rows` is a scan of the messages table, a page lists, newest first, only
   * messages of the table by active authors in the requested room.
   */
  lemma PageListsTable(t: Tables, rows: seq<MessageRow>, q: GetMessagesQuery)
    requires ScanOf(t, rows)
    ensures var ms := GetMessages(t, rows, q).messages;
            forall i, j :: 0 <= i < j < |ms| ==> ms[i].indexedAt >= ms[j].indexedAt
    ensures var ms := GetMessages(t, rows, q).messages;
            forall k :: 0 <= k < |ms| ==>
              exists m :: m in t.messages.Values && Listed(t, Truthy(q.uri), m) && ms[k] == View(m, t.users[m.did])
  {
    var offset := if q.cursor.Some? then q.cursor.value else 0;
    var all := Ordered(t, q.uri, rows);
    var vs := PageOf(t, all, offset, q.limit);
    assert GetMessages(t, rows, q).messages == vs;
    PageOfNewestFirst(t, all, offset, q.limit);
    OrderedScan(t, q.uri, rows);
    forall k | 0 <= k < |vs|
      ensures exists m :: m in t.messages.Values && Listed(t, Truthy(q.uri), m) && vs[k] == View(m, t.users[m.did])
    {
      var m := all[offset + k];
      assert vs[k] == View(m, t.users[m.did]);
      assert m in all;
    }
  }

  /** A page cut from rows ordered newest first is itself newest first. */
  lemma PageOfNewestFirst(t: Tables, all: seq<MessageRow>, offset: nat, limit: nat)
    requires forall k :: 0 <= k < |all| ==> all[k].did in t.users
    requires NewestFirst(all)
    ensures var vs := PageOf(t, all, offset, limit);
            forall i, j :: 0 <= i < j < |vs| ==> vs[i].indexedAt >= vs[j].indexedAt
  {
    var vs := PageOf(t, all, offset, limit);
    forall i, j | 0 <= i < j < |vs| ensures vs[i].indexedAt >= vs[j].indexedAt {
      assert vs[i].indexedAt == all[offset + i].indexedAt && vs[j].indexedAt == all[offset + j].indexedAt;
    }
  }

  /**
   * Over a scan of the table, the ordered rows are exactly the listed messages of
   * the table, each once.
   */
  lemma OrderedScan(t: Tables, uri: Option<string>, rows: seq<MessageRow>)
    requires ScanOf(t, rows)
    ensures Distinct(Ordered(t, uri, rows))
    ensures forall m :: m in Ordered(t, uri, rows) <==> m in t.messages.Values && Listed(t, Truthy(uri), m)
  {
    var all := Ordered(t, uri, rows);
    forall m ensures multiset(all)[m] <= 1 {
      assert multiset(all)[m] == multiset(Eligible(t, Truthy(uri), rows))[m] <= multiset(rows)[m];
    }
  }

  /** A message by an inactive author is never listed. */
  lemma InactiveAuthorHidden(t: Tables, rows: seq<MessageRow>, q: GetMessagesQuery, m: MessageRow)
    requires m.did in t.users && !t.users[m.did].active
    ensures m !in Ordered(t, q.uri, rows)
  {
  }
}
