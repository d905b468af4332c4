/**
 * String helpers with JavaScript's meaning: `Array.prototype.join` and the
 * inverse of a join on a one-character separator.
 */
module Strings {

  /** `parts.join(sep)`: the empty list joins to "", a single part to itself. */
  function Join(sep: string, parts: seq<string>): string
    decreases |parts|
  {
    if |parts| == 0 then ""
    else if |parts| == 1 then parts[0]
    else parts[0] + sep + Join(sep, parts[1..])
  }

  /** Position of the first occurrence of `c` in `s`. */
  function IndexOf(s: string, c: char): (i: nat)
    requires c in s
    ensures i < |s| && s[i] == c && c !in s[..i]
  {
    if s[0] == c then 0
    else
      var k := IndexOf(s[1..], c);
      assert s[1..][..k] == s[1..k + 1];
      k + 1
  }

  /** `s.split(c)`: the pieces between occurrences of `c`; always at least one. */
  function Split(s: string, c: char): (r: seq<string>)
    ensures |r| > 0
    decreases |s|
  {
    if c in s then
      var i := IndexOf(s, c);
      [s[..i]] + Split(s[i + 1..], c)
    else [s]
  }

  /** No part contains the separator character `c`. */
  predicate Free(parts: seq<string>, c: char)
  {
    forall i :: 0 <= i < |parts| ==> c !in parts[i]
  }

  lemma IndexOfAfterFree(a: string, c: char, b: string)
    requires c !in a
    ensures c in a + [c] + b && IndexOf(a + [c] + b, c) == |a|
  {
    var s := a + [c] + b;
    assert s[|a|] == c;
  }

  /** Splitting a join on `c` gives back the parts, when no part contains `c`. */
  lemma {:induction false} SplitJoin(parts: seq<string>, c: char)
    requires |parts| > 0 && Free(parts, c)
    ensures Split(Join([c], parts), c) == parts
  {
    if |parts| == 1 {
      assert c !in parts[0];
    } else {
      var first, others := parts[0], parts[1..];
      var rest := Join([c], others);
      var s := first + [c] + rest;
      assert Join([c], parts) == s;
      assert c !in first;
      IndexOfAfterFree(first, c, rest);
      assert s[..|first|] == first;
      assert s[|first| + 1..] == rest;
      assert Split(s, c) == [first] + Split(rest, c);
      assert Free(others, c) by {
        forall i | 0 <= i < |others| ensures c !in others[i] {
          assert others[i] == parts[i + 1];
        }
      }
      SplitJoin(others, c);
      assert parts == [first] + others;
    }
  }

  /** A join on `c` of parts free of `c` holds exactly one `c` between each two parts. */
  lemma {:induction false} JoinCount(parts: seq<string>, c: char)
    requires |parts| > 0 && Free(parts, c)
    ensures multiset(Join([c], parts))[c] == |parts| - 1
  {
    assert c !in parts[0];
    assert multiset(parts[0])[c] == 0;
    if |parts| > 1 {
      JoinCount(parts[1..], c);
      assert Join([c], parts) == parts[0] + [c] + Join([c], parts[1..]);
    }
  }
}
