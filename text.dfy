/** The string operations the mapper relies on: str.find, str.split and
    str.lower on byte strings. */
module Text {

  /** s.find(c): the index of the first occurrence of c, or -1. */
  function Find(s: string, c: char): (i: int)
    ensures -1 <= i < |s|
    ensures i == -1 <==> c !in s
    ensures 0 <= i ==> s[i] == c && c !in s[..i]
  {
    if |s| == 0 then -1
    else if s[0] == c then 0
    else
      var j := Find(s[1..], c);
      if j == -1 then -1
      else
        assert s[..j + 1] == [s[0]] + s[1..][..j];
        j + 1
  }

  /** The pieces of a split, put back together with the separator. */
  function JoinWith(pieces: seq<string>, c: char): string
    requires |pieces| >= 1
  {
    if |pieces| == 1 then pieces[0] else pieces[0] + [c] + JoinWith(pieces[1..], c)
  }

  /** s.split(c): the maximal pieces of s that do not contain c, in order. */
  function SplitOn(s: string, c: char): (pieces: seq<string>)
    ensures |pieces| >= 1
    ensures forall k :: 0 <= k < |pieces| ==> c !in pieces[k]
    ensures JoinWith(pieces, c) == s
    decreases |s|
  {
    var i := Find(s, c);
    if i == -1 then [s]
    else
      var rest := SplitOn(s[i + 1..], c);
      var pieces := [s[..i]] + rest;
      assert pieces[1..] == rest;
      assert JoinWith(pieces, c) == s[..i] + [c] + s[i + 1..];
      assert s == s[..i] + [c] + s[i + 1..];
      pieces
  }

  /** Splitting k + c + rest, where k does not hold c, gives k and then the
      pieces of rest. */
  lemma SplitFirst(k: string, c: char, rest: string)
    requires c !in k
    ensures SplitOn(k + [c] + rest, c) == [k] + SplitOn(rest, c)
  {
    var s := k + [c] + rest;
    assert s[|k|] == c;
    assert s[..|k|] == k;
    assert Find(s, c) == |k|;
    assert s[|k| + 1..] == rest;
  }

  /** Splitting k + c + v, where neither part holds c, gives exactly [k, v]. */
  lemma SplitPair(k: string, c: char, v: string)
    requires c !in k && c !in v
    ensures SplitOn(k + [c] + v, c) == [k, v]
  {
    var s := k + [c] + v;
    assert s[|k|] == c;
    assert s[..|k|] == k;
    assert Find(s, c) == |k|;
    assert s[|k| + 1..] == v;
  }

  /** s.split(c) has a second piece exactly when c occurs in s. */
  lemma SplitOnCount(s: string, c: char)
    ensures |SplitOn(s, c)| >= 2 <==> c in s
  {
  }

  function LowerChar(c: char): char {
    if 'A' <= c <= 'Z' then ((c as int) + 32) as char else c
  }

  /** s.lower() on a byte string: ASCII letters only. */
  function Lower(s: string): (r: string)
    ensures |r| == |s|
    ensures forall i :: 0 <= i < |s| ==> r[i] == LowerChar(s[i])
  {
    seq(|s|, i requires 0 <= i < |s| => LowerChar(s[i]))
  }

  /** Whether a declared attribute is the object-class attribute, which add
      and modify treat apart (compared case-insensitively). */
  predicate IsObjectClassName(name: string) {
    Lower(name) == "objectclass"
  }

  /** The objectclass test accepts objectClass, objectclass and OBJECTCLASS,
      and no name of another length. */
  lemma ObjectClassNames()
    ensures IsObjectClassName("objectClass") && IsObjectClassName("objectclass") && IsObjectClassName("OBJECTCLASS")
    ensures forall n :: |n| != |"objectclass"| ==> !IsObjectClassName(n)
    ensures !IsObjectClassName("objectclasses") && !IsObjectClassName("cn")
  {
    assert Lower("objectClass") == "objectclass";
    assert Lower("OBJECTCLASS") == "objectclass";
    assert Lower("objectclass") == "objectclass";
  }

  /** The objectclass test ignores letter case: every name whose letters
      lower one by one to "objectclass" passes it. */
  lemma ObjectClassAnyCase(n: string)
    requires |n| == |"objectclass"|
    requires forall k :: 0 <= k < |n| ==> LowerChar(n[k]) == "objectclass"[k]
    ensures IsObjectClassName(n)
  {
    var l := Lower(n);
    assert |l| == |"objectclass"|;
    assert forall k :: 0 <= k < |l| ==> l[k] == "objectclass"[k];
  }
}
