/** Sequence notions shared by the models. */
module Sequences {

  ghost predicate NoDuplicates<T>(s: seq<T>) {
    forall i, j :: 0 <= i < j < |s| ==> s[i] != s[j]
  }

  function Reversed<T>(s: seq<T>): (r: seq<T>)
    ensures |r| == |s|
    ensures forall i :: 0 <= i < |s| ==> r[i] == s[|s| - 1 - i]
  {
    if s == [] then [] else [s[|s| - 1]] + Reversed(s[..|s| - 1])
  }

  /** Cutting one position out of a duplicate-free list removes exactly that element. */
  lemma RemoveAt<T>(s: seq<T>, i: nat)
    requires i < |s| && NoDuplicates(s)
    ensures NoDuplicates(s[..i] + s[i + 1..])
    ensures forall x :: x in s[..i] + s[i + 1..] <==> x in s && x != s[i]
  {
    var r := s[..i] + s[i + 1..];
    forall x | x in s && x != s[i]
      ensures x in r
    {
      var j :| 0 <= j < |s| && s[j] == x;
      assert r[if j < i then j else j - 1] == x;
    }
  }

  lemma NoDuplicatesCons<T>(x: T, rest: seq<T>)
    ensures NoDuplicates([x] + rest) <==> x !in rest && NoDuplicates(rest)
  {
    var s := [x] + rest;
    if NoDuplicates(s) {
      forall i, j | 0 <= i < j < |rest|
        ensures rest[i] != rest[j]
      {
        assert s[i + 1] == rest[i] && s[j + 1] == rest[j];
      }
      forall j | 0 <= j < |rest|
        ensures rest[j] != x
      {
        assert s[0] == x && s[j + 1] == rest[j];
      }
    }
  }

  lemma NoDuplicatesConcat<T>(a: seq<T>, b: seq<T>)
    ensures NoDuplicates(a + b) <==> NoDuplicates(a) && NoDuplicates(b) && forall x :: x in a ==> x !in b
  {
    var s := a + b;
    if NoDuplicates(s) {
      forall i, j | 0 <= i < j < |b|
        ensures b[i] != b[j]
      {
        assert s[|a| + i] == b[i] && s[|a| + j] == b[j];
      }
      forall x | x in a
        ensures x !in b
      {
        var i :| 0 <= i < |a| && a[i] == x;
        assert forall j :: 0 <= j < |b| ==> s[|a| + j] == b[j] && s[i] == x;
      }
      assert forall i :: 0 <= i < |a| ==> s[i] == a[i];
    } else {
      var i, j :| 0 <= i < j < |s| && s[i] == s[j];
      assert i < |a| <= j ==> s[i] in a && s[j] in b;
    }
  }
}
