/** Splitting a string at every occurrence of a character. */
module Splitting {

  predicate Lacks(s: string, c: char) {
    forall i | 0 <= i < |s| :: s[i] != c
  }

  /** The position of the first occurrence, or the length without one. */
  function IndexOf(s: string, c: char): (k: nat)
    ensures k <= |s| && (k < |s| ==> s[k] == c)
    ensures forall i | 0 <= i < k :: s[i] != c
  {
    if s == "" || s[0] == c then 0 else 1 + IndexOf(s[1..], c)
  }

  /** Python's `s.split(c)`. */
  function Split(s: string, c: char): (parts: seq<string>)
    ensures parts != []
  {
    var k := IndexOf(s, c);
    if k == |s| then [s] else [s[..k]] + Split(s[k + 1..], c)
  }

  lemma IndexAfter(part: string, c: char, rest: string)
    requires Lacks(part, c)
    ensures IndexOf(part + [c] + rest, c) == |part|
  {
    hide IndexOf;
    var s := part + [c] + rest;
    assert forall i | 0 <= i < |part| :: s[i] == part[i] != c;
    assert s[|part|] == c;
  }

  lemma SplitFirst(part: string, c: char, rest: string)
    requires Lacks(part, c)
    ensures Split(part + [c] + rest, c) == [part] + Split(rest, c)
  {
    hide IndexOf, Lacks;
    var s := part + [c] + rest;
    IndexAfter(part, c, rest);
    assert s[..|part|] == part && s[|part| + 1..] == rest;
  }

  lemma SplitLast(part: string, c: char)
    requires Lacks(part, c)
    ensures Split(part, c) == [part]
  {
    hide IndexOf;
    assert forall i | 0 <= i < |part| :: part[i] != c;
  }
}
