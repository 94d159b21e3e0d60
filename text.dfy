/**
 * The JavaScript string operations the relay relies on. A JavaScript string is a
 * sequence of UTF-16 code units and `.length` is the number of those units, so a
 * string is modelled as `seq<char>` and its length as `|s|`.
 */
module Text {
  import opened Base

  /** `s.startsWith(p)` */
  predicate StartsWith(s: string, p: string)
  {
    |p| <= |s| && s[..|p|] == p
  }

  /** `p` occurs in `s` starting at code unit `i`. */
  predicate OccursAt(s: string, p: string, i: int)
  {
    0 <= i && i + |p| <= |s| && s[i..i + |p|] == p
  }

  lemma OccursAtShift(s: string, p: string, i: int)
    requires |s| > 0 && 0 <= i
    ensures OccursAt(s, p, i + 1) <==> OccursAt(s[1..], p, i)
  {
    if 0 <= i && i + 1 + |p| <= |s| {
      assert s[1..][i..i + |p|] == s[i + 1..i + 1 + |p|];
    }
  }

  /** `s.indexOf(p)`: the first position at which `p` occurs, if any. */
  function IndexOf(s: string, p: string): (r: Option<nat>)
    ensures r.Some? ==> OccursAt(s, p, r.value)
    ensures r.Some? ==> forall j :: 0 <= j < r.value ==> !OccursAt(s, p, j)
    ensures r.None? ==> forall j :: !OccursAt(s, p, j)
    decreases |s|
  {
    if StartsWith(s, p) then Some(0)
    else if |s| == 0 then None
    else
      var rest := IndexOf(s[1..], p);
      assert forall j | 0 <= j :: OccursAt(s, p, j + 1) <==> OccursAt(s[1..], p, j) by {
        forall j | 0 <= j ensures OccursAt(s, p, j + 1) <==> OccursAt(s[1..], p, j) {
          OccursAtShift(s, p, j);
        }
      }
      assert forall j :: OccursAt(s, p, j) ==> j == 0 || OccursAt(s[1..], p, j - 1) by {
        forall j | OccursAt(s, p, j) ensures j == 0 || OccursAt(s[1..], p, j - 1) {
          if j != 0 { OccursAtShift(s, p, j - 1); }
        }
      }
      match rest
      case None => None
      case Some(i) => Some(i + 1)
  }

  /** `s.includes(p)` */
  predicate Includes(s: string, p: string)
  {
    IndexOf(s, p).Some?
  }

  lemma IncludesAt(s: string, p: string, i: int)
    requires OccursAt(s, p, i)
    ensures Includes(s, p)
  {
  }

  /** No occurrence of `p` lies wholly inside the part of `s` before its first occurrence. */
  lemma PrefixBeforeFirst(s: string, p: string, i: nat)
    requires |p| > 0 && IndexOf(s, p) == Some(i)
    ensures !Includes(s[..i], p)
  {
    var pre := s[..i];
    if Includes(pre, p) {
      var j := IndexOf(pre, p).value;
      assert pre[j..j + |p|] == s[j..j + |p|];
      assert OccursAt(s, p, j) && j < i;
    }
  }

  /**
   * `s.split(sep)` for a non-empty separator: the pieces between the successive
   * left-to-right, non-overlapping occurrences of `sep`.
   */
  function Split(s: string, sep: string): (parts: seq<string>)
    requires |sep| > 0
    ensures |parts| >= 1
    ensures forall k :: 0 <= k < |parts| ==> !Includes(parts[k], sep)
    decreases |s|
  {
    match IndexOf(s, sep)
    case None => [s]
    case Some(i) =>
      PrefixBeforeFirst(s, sep, i);
      [s[..i]] + Split(s[i + |sep|..], sep)
  }

  /** `parts.join(sep)` */
  function Join(parts: seq<string>, sep: string): string
  {
    if |parts| == 0 then ""
    else if |parts| == 1 then parts[0]
    else parts[0] + sep + Join(parts[1..], sep)
  }

  /** `parts.pop()` on a non-empty array: its last element. */
  function Last(parts: seq<string>): string
    requires |parts| > 0
  {
    parts[|parts| - 1]
  }

  /** Splitting and joining with the same separator gives back the string. */
  lemma {:induction false} JoinSplit(s: string, sep: string)
    requires |sep| > 0
    ensures Join(Split(s, sep), sep) == s
    decreases |s|
  {
    match IndexOf(s, sep)
    case None =>
    case Some(i) =>
      var rest := Split(s[i + |sep|..], sep);
      JoinSplit(s[i + |sep|..], sep);
      assert Split(s, sep) == [s[..i]] + rest;
      assert ([s[..i]] + rest)[1..] == rest;
      calc {
        Join(Split(s, sep), sep);
        s[..i] + sep + Join(rest, sep);
        s[..i] + sep + s[i + |sep|..];
        { assert s[i..i + |sep|] == sep; }
        s;
      }
  }

  /** A piece with an occurrence of the separator splits into at least two pieces. */
  lemma SplitAtLeastTwo(s: string, sep: string)
    requires |sep| > 0 && Includes(s, sep)
    ensures |Split(s, sep)| >= 2
  {
    var i := IndexOf(s, sep).value;
    assert Split(s, sep) == [s[..i]] + Split(s[i + |sep|..], sep);
  }

  /** For a one-unit pattern, `includes` is membership. */
  lemma IncludesUnit(s: string, c: char)
    ensures Includes(s, [c]) <==> c in s
  {
    if c in s {
      var m :| 0 <= m < |s| && s[m] == c;
      assert s[m..m + 1] == [c];
      IncludesAt(s, [c], m);
    }
    if Includes(s, [c]) {
      var i := IndexOf(s, [c]).value;
      assert s[i..i + 1] == [c];
      assert s[i] == c;
    }
  }

  /** A string without the one-unit separator `c` stays whole. */
  lemma SplitWhole(s: string, c: char)
    requires c !in s
    ensures Split(s, [c]) == [s]
  {
    IncludesUnit(s, c);
  }

  /** The first piece of `a + [c] + b`, when `a` has no `c`, is `a` itself. */
  lemma SplitCons(a: string, c: char, b: string)
    requires c !in a
    ensures Split(a + [c] + b, [c]) == [a] + Split(b, [c])
  {
    var s := a + [c] + b;
    assert s[|a|..|a| + 1] == [c];
    assert OccursAt(s, [c], |a|);
    var i := IndexOf(s, [c]).value;
    assert s[i..i + 1] == [c];
    assert s[i] == c;
    assert i == |a|;
    assert s[..i] == a;
    assert s[i + 1..] == b;
  }

  /** Whatever precedes the last separator, the last piece is what follows it. */
  lemma {:induction false} SplitLast(prefix: string, c: char, last: string)
    requires c !in last
    ensures Last(Split(prefix + [c] + last, [c])) == last
    decreases |prefix|
  {
    if c !in prefix {
      SplitCons(prefix, c, last);
      SplitWhole(last, c);
    } else {
      var i := FirstUnit(prefix, c);
      var p1, p2 := prefix[..i], prefix[i + 1..];
      assert prefix + [c] + last == p1 + [c] + (p2 + [c] + last) by {
        assert prefix == p1 + [c] + p2;
      }
      SplitCons(p1, c, p2 + [c] + last);
      SplitLast(p2, c, last);
    }
  }

  /** The position of the first `c` in a string that has one. */
  lemma FirstUnit(s: string, c: char) returns (i: nat)
    requires c in s
    ensures i < |s| && s[i] == c && c !in s[..i]
  {
    IncludesUnit(s, c);
    i := IndexOf(s, [c]).value;
    assert s[i..i + 1] == [c];
    PrefixBeforeFirst(s, [c], i);
    IncludesUnit(s[..i], c);
  }
}
