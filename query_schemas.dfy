/**
 * The input schemas of src/lib/schemas.ts as predicates over JSON values: the
 * query of `getMessages`, the query of `/subscribe`, and the facet list shape.
 * A JSON object that declares properties requires each property not marked
 * optional; the facet objects also accept properties they do not declare. The
 * "uri" string format is a parameter (`isUri`).
 */
module QuerySchemas {
  import opened Base

  /** A JSON value. Numbers are exact rationals; integrality is a property of the value. */
  datatype Json =
    | JNull
    | JBool(b: bool)
    | JNum(r: real)
    | JStr(s: string)
    | JArr(items: seq<Json>)
    | JObj(fields: map<string, Json>)

  type UriFormat = string -> bool

  /** The `getMessages` query after validation; `limit` has its default filled in. */
  datatype GetMessagesQuery = GetMessagesQuery(uri: Option<string>, limit: nat, cursor: Option<nat>)

  /** The `/subscribe` query after validation. */
  datatype SocketQuery = SocketQuery(wantedRooms: Option<seq<string>>)

  const DefaultLimit: nat := 50
  const MinLimit: nat := 1
  const MaxLimit: nat := 100

  predicate IsInteger(v: Json)
  {
    v.JNum? && v.r == v.r.Floor as real
  }

  /** `t.integer({ minimum: lo, maximum: hi })`. */
  predicate IntegerIn(v: Json, lo: int, hi: int)
  {
    IsInteger(v) && lo as real <= v.r <= hi as real
  }

  /** `t.string({ format: "uri" })`. */
  predicate IsUriString(isUri: UriFormat, v: Json)
  {
    v.JStr? && isUri(v.s)
  }

  /**
   * `GetMessagesSchema`: `uri` optional with uri format, `limit` an integer in
   * 1..100 defaulting to 50, `cursor` optional and a non-negative integer. Keys the
   * schema does not name are dropped before validation.
   */
  function ParseGetMessages(isUri: UriFormat, q: map<string, Json>): (r: Option<GetMessagesQuery>)
    ensures r.Some? <==>
              && ("uri" in q ==> IsUriString(isUri, q["uri"]))
              && ("limit" in q ==> IntegerIn(q["limit"], MinLimit, MaxLimit))
              && ("cursor" in q ==> IsInteger(q["cursor"]) && q["cursor"].r >= 0.0)
    ensures r.Some? ==> MinLimit <= r.value.limit <= MaxLimit
    ensures r.Some? ==> (r.value.uri.Some? <==> "uri" in q) && (r.value.uri.Some? ==> isUri(r.value.uri.value))
    ensures r.Some? && "limit" !in q ==> r.value.limit == DefaultLimit
    ensures r.Some? && "limit" in q ==> r.value.limit as real == q["limit"].r
    ensures r.Some? ==> (r.value.cursor.Some? <==> "cursor" in q)
    ensures r.Some? && "cursor" in q ==> r.value.cursor.value as real == q["cursor"].r
  {
    if "uri" in q && !IsUriString(isUri, q["uri"]) then None
    else if "limit" in q && !IntegerIn(q["limit"], MinLimit, MaxLimit) then None
    else if "cursor" in q && !(IsInteger(q["cursor"]) && q["cursor"].r >= 0.0) then None
    else
      var uri := if "uri" in q then Some(q["uri"].s) else None;
      var limit: nat := if "limit" in q then q["limit"].r.Floor else DefaultLimit;
      var cursor: Option<nat> := if "cursor" in q then Some(q["cursor"].r.Floor) else None;
      Some(GetMessagesQuery(uri, limit, cursor))
  }

  /** `SocketQuerySchema`: `wantedRooms` is optional and, when present, an array of uri-format strings. */
  function ParseSocketQuery(isUri: UriFormat, q: map<string, Json>): (r: Option<SocketQuery>)
    ensures r.Some? <==>
              "wantedRooms" in q ==>
                && q["wantedRooms"].JArr?
                && forall k :: 0 <= k < |q["wantedRooms"].items| ==> IsUriString(isUri, q["wantedRooms"].items[k])
    ensures r.Some? ==> (r.value.wantedRooms.Some? <==> "wantedRooms" in q)
    ensures r.Some? && "wantedRooms" in q ==>
              && |r.value.wantedRooms.value| == |q["wantedRooms"].items|
              && forall k :: 0 <= k < |q["wantedRooms"].items| ==> q["wantedRooms"].items[k] == JStr(r.value.wantedRooms.value[k])
  {
    if "wantedRooms" !in q then Some(SocketQuery(None))
    else
      var v := q["wantedRooms"];
      if !v.JArr? || exists k :: 0 <= k < |v.items| && !IsUriString(isUri, v.items[k]) then None
      else Some(SocketQuery(Some(seq(|v.items|, k requires 0 <= k < |v.items| => v.items[k].s))))
  }

  /** An object whose property `key` exists and is a string (other properties allowed). */
  predicate HasString(v: Json, key: string)
  {
    v.JObj? && key in v.fields && v.fields[key].JStr?
  }

  /** An object whose property `key` exists and is a number (other properties allowed). */
  predicate HasNumber(v: Json, key: string)
  {
    v.JObj? && key in v.fields && v.fields[key].JNum?
  }

  /** The facet's `index`: numeric `byteStart` and `byteEnd`. */
  predicate ValidIndex(v: Json)
  {
    HasNumber(v, "byteStart") && HasNumber(v, "byteEnd")
  }

  /** How many of the four feature shapes (mention `did`, link `uri`, room `room`, typed `$type`) `v` matches. */
  function FeatureMatches(v: Json): (n: nat)
    ensures n <= 4
    ensures n == 0 <==> !HasString(v, "did") && !HasString(v, "uri") && !HasString(v, "room") && !HasString(v, "$type")
  {
    (if HasString(v, "did") then 1 else 0)
    + (if HasString(v, "uri") then 1 else 0)
    + (if HasString(v, "room") then 1 else 0)
    + (if HasString(v, "$type") then 1 else 0)
  }

  /** `t.one(…)`: a feature must match exactly one of the four shapes. */
  predicate ValidFeature(v: Json)
  {
    FeatureMatches(v) == 1
  }

  /** One facet: an `index` object and a `features` array of valid features. */
  predicate ValidFacet(v: Json)
  {
    && v.JObj?
    && "index" in v.fields && ValidIndex(v.fields["index"])
    && "features" in v.fields && v.fields["features"].JArr?
    && forall k :: 0 <= k < |v.fields["features"].items| ==> ValidFeature(v.fields["features"].items[k])
  }

  /** `FacetsSchema`: absent, or an array of valid facets. */
  predicate ValidFacets(v: Option<Json>)
  {
    v.None? || (v.value.JArr? && forall k :: 0 <= k < |v.value.items| ==> ValidFacet(v.value.items[k]))
  }

  /**
   * A feature that names its lexicon `$type` as well as its payload matches two
   * shapes at once, so `t.one` rejects it, and with it the whole facet list.
   */
  lemma TypedMentionRejected(did: string, kind: string, index: Json)
    requires ValidIndex(index)
    ensures !ValidFeature(JObj(map["$type" := JStr(kind), "did" := JStr(did)]))
    ensures !ValidFacets(Some(JArr([JObj(map["index" := index,
                                             "features" := JArr([JObj(map["$type" := JStr(kind), "did" := JStr(did)])])])])))
  {
    var feature := JObj(map["$type" := JStr(kind), "did" := JStr(did)]);
    assert FeatureMatches(feature) == 2;
    var facet := JObj(map["index" := index, "features" := JArr([feature])]);
    assert facet.fields["features"].items[0] == feature;
    assert !ValidFacet(facet);
    assert JArr([facet]).items[0] == facet;
  }

  /** A bare feature with one shape's property is accepted, whatever else it carries. */
  lemma BareMentionAccepted(did: string, extra: map<string, Json>)
    requires "uri" !in extra && "room" !in extra && "$type" !in extra
    ensures ValidFeature(JObj(extra["did" := JStr(did)]))
  {
  }
}
