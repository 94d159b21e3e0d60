/**
 * The two decisions inside `resolveDid` (src/utils.ts): which URL the DID document
 * is fetched from, and which `alsoKnownAs` entry yields the handle. The fetch and
 * the JSON parsing themselves are network I/O and are not part of this model.
 */
module Utils {
  import opened Base
  import opened Text

  /**
   * The URL of the DID document: for a `did:web` identifier, the third
   * `:`-separated segment names the host (and JavaScript renders a missing segment
   * as the text "undefined"); any other identifier is looked up in the PLC directory.
   */
  function DidDocumentUrl(did: string): (url: string)
    ensures StartsWith(url, "https://")
  {
    if StartsWith(did, "did:web") then
      var parts := Split(did, ":");
      "https://" + (if |parts| > 2 then parts[2] else "undefined") + "/.well-known/did.json"
    else
      "https://plc.directory/" + did
  }

  /** A `did:web` identifier is fetched from its host, whatever path segments follow. */
  lemma WebDidUrl(host: string, path: string)
    requires ':' !in host
    requires path == [] || path[0] == ':'
    ensures DidDocumentUrl("did:web:" + host + path) == "https://" + host + "/.well-known/did.json"
  {
    var rest := host + path;
    assert "did:web:" + host + path == "did:web:" + rest;
    WebDidSegments(rest);
    if path == [] {
      assert rest == host;
      SplitWhole(host, ':');
    } else {
      assert rest == host + [':'] + path[1..];
      SplitCons(host, ':', path[1..]);
    }
    assert Split(rest, ":")[0] == host;
  }

  /** The first two segments of `did:web:<rest>` are "did" and "web". */
  lemma WebDidSegments(rest: string)
    ensures StartsWith("did:web:" + rest, "did:web")
    ensures Split("did:web:" + rest, ":") == ["did", "web"] + Split(rest, ":")
  {
    var did := "did:web:" + rest;
    assert did[..7] == "did:web";
    assert did == "did" + [':'] + ("web" + [':'] + rest);
    SplitCons("did", ':', "web" + [':'] + rest);
    SplitCons("web", ':', rest);
  }

  /** A bare `did:web` has exactly two segments. */
  lemma BareWebDidSegments()
    ensures Split("did:web", ":") == ["did", "web"]
  {
    assert "did:web" == "did" + [':'] + "web";
    SplitCons("did", ':', "web");
    SplitWhole("web", ':');
  }

  /** A bare `did:web` has no third segment, so the URL names the host "undefined". */
  lemma BareWebDidUrl()
    ensures DidDocumentUrl("did:web") == "https://" + "undefined" + "/.well-known/did.json"
  {
    BareWebDidSegments();
    assert StartsWith("did:web", "did:web");
  }

  /** A `did:plc` identifier is fetched from the PLC directory by its full text. */
  lemma PlcDidUrl(did: string)
    requires StartsWith(did, "did:plc:")
    ensures DidDocumentUrl(did) == "https://plc.directory/" + did
  {
    assert did[..7][4] == 'p';
  }

  /** An alias that contains "at://" also contains "//". */
  lemma AtAliasHasSlashes(alias: string)
    requires Includes(alias, "at://")
    ensures Includes(alias, "//")
  {
    var i := IndexOf(alias, "at://").value;
    assert alias[i + 3..i + 5] == alias[i..i + 5][3..5];
    IncludesAt(alias, "//", i + 3);
  }

  /** `alias.split("//")[1]`: what follows the first "//" up to the next one. */
  function AliasHandle(alias: string): string
    requires Includes(alias, "at://")
  {
    AtAliasHasSlashes(alias);
    SplitAtLeastTwo(alias, "//");
    Split(alias, "//")[1]
  }

  /**
   * The handle read from an alias is the text between its first "//" and the next
   * "//", or the end of the alias when there is no second one; it never holds "//".
   */
  lemma AliasHandleBetween(alias: string)
    requires Includes(alias, "at://")
    ensures Includes(alias, "//")
    ensures !Includes(AliasHandle(alias), "//")
    ensures var rest := alias[IndexOf(alias, "//").value + 2..];
            AliasHandle(alias) == if Includes(rest, "//") then rest[..IndexOf(rest, "//").value] else rest
  {
    AtAliasHasSlashes(alias);
    var i := IndexOf(alias, "//").value;
    var rest := alias[i + 2..];
    assert Split(alias, "//") == [alias[..i]] + Split(rest, "//");
  }

  /** `k` is the first entry that contains "at://". */
  predicate FirstAtAlias(aliases: seq<string>, k: int)
  {
    && 0 <= k < |aliases|
    && Includes(aliases[k], "at://")
    && forall j :: 0 <= j < k ==> !Includes(aliases[j], "at://")
  }

  /**
   * The `for` loop over `alsoKnownAs`: the handle taken from the first entry that
   * contains "at://"; later entries are never looked at, and when no entry
   * qualifies the result is `undefined`.
   */
  function HandleFromAliases(aliases: seq<string>): (h: Option<string>)
    ensures h.None? <==> forall k :: 0 <= k < |aliases| ==> !Includes(aliases[k], "at://")
    ensures forall k :: FirstAtAlias(aliases, k) ==> h == Some(AliasHandle(aliases[k]))
  {
    if |aliases| == 0 then None
    else if Includes(aliases[0], "at://") then Some(AliasHandle(aliases[0]))
    else
      var rest := HandleFromAliases(aliases[1..]);
      assert forall k :: FirstAtAlias(aliases, k) ==> FirstAtAlias(aliases[1..], k - 1) by {
        forall k | FirstAtAlias(aliases, k) ensures FirstAtAlias(aliases[1..], k - 1) {
          assert k != 0;
          forall j | 0 <= j < k - 1 ensures !Includes(aliases[1..][j], "at://") {
            assert aliases[1..][j] == aliases[j + 1];
          }
        }
      }
      assert forall k :: 0 <= k < |aliases[1..]| ==> aliases[1..][k] == aliases[k + 1];
      rest
  }

  /** Once an entry has yielded the handle, appending further entries changes nothing. */
  lemma {:induction false} LaterAliasesIgnored(aliases: seq<string>, more: seq<string>)
    requires HandleFromAliases(aliases).Some?
    ensures HandleFromAliases(aliases + more) == HandleFromAliases(aliases)
  {
    var k := FirstAtExists(aliases);
    var all := aliases + more;
    assert FirstAtAlias(all, k) by {
      assert forall j :: 0 <= j <= k ==> all[j] == aliases[j];
    }
  }

  /** When some entry contains "at://", a first such entry exists. */
  lemma {:induction false} FirstAtExists(aliases: seq<string>) returns (k: nat)
    requires exists j :: 0 <= j < |aliases| && Includes(aliases[j], "at://")
    ensures FirstAtAlias(aliases, k)
    decreases |aliases|
  {
    if Includes(aliases[0], "at://") {
      k := 0;
    } else {
      var j :| 0 <= j < |aliases| && Includes(aliases[j], "at://");
      assert aliases[1..][j - 1] == aliases[j];
      var k1 := FirstAtExists(aliases[1..]);
      k := k1 + 1;
      forall i | 0 <= i < k ensures !Includes(aliases[i], "at://") {
        if i > 0 {
          assert aliases[i] == aliases[1..][i - 1];
        }
      }
    }
  }

  /** The usual alias `at://<handle>` yields exactly the handle. */
  lemma HandleOfAtUri(handle: string)
    requires !Includes(handle, "//")
    ensures HandleFromAliases(["at://" + handle]) == Some(handle)
  {
    var alias := "at://" + handle;
    assert alias[0..5] == "at://";
    IncludesAt(alias, "at://", 0);
    assert alias[3..5] == "//";
    assert OccursAt(alias, "//", 3);
    assert !OccursAt(alias, "//", 0) && !OccursAt(alias, "//", 1) && !OccursAt(alias, "//", 2) by {
      assert alias[0] == 'a' && alias[1] == 't' && alias[2] == ':';
    }
    assert IndexOf(alias, "//") == Some(3);
    assert alias[..3] == "at:" && alias[5..] == handle;
    assert Split(alias, "//") == ["at:"] + Split(handle, "//");
    assert Split(handle, "//") == [handle];
  }

  /**
   * What `resolveDid` yields, given the `alsoKnownAs` list of the document fetched
   * from `DidDocumentUrl(did)` (`None` when the fetch or the parse failed).
   */
  function ResolvedHandle(alsoKnownAs: Option<seq<string>>): (h: Option<string>)
    ensures h.Some? <==> alsoKnownAs.Some? && exists k :: 0 <= k < |alsoKnownAs.value| && Includes(alsoKnownAs.value[k], "at://")
  {
    match alsoKnownAs
    case None => None
    case Some(aliases) => HandleFromAliases(aliases)
  }
}
