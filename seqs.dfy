/**
 * Sequence algorithms the program leans on: std::find, find-then-erase, and
 * the first-occurrence de-duplication that building an index buffer performs.
 */
module Seqs {

  /** std::find: the position of x in s, or |s| (the end iterator) when there is none. */
  function Find<T(==)>(s: seq<T>, x: T): (i: nat)
    ensures i <= |s|
    ensures i < |s| ==> s[i] == x
    ensures i == |s| <==> x !in s
  {
    if s == [] then 0
    else if s[0] == x then 0
    else 1 + Find(s[1..], x)
  }

  /** The position Find reports is that of the first occurrence. */
  lemma {:induction false} FindFirst<T>(s: seq<T>, x: T)
    ensures forall j :: 0 <= j < Find(s, x) ==> s[j] != x
  {
    if s != [] && s[0] != x {
      FindFirst(s[1..], x);
    }
  }

  /** Appending leaves the position of an element already present where it was. */
  lemma {:induction false} FindAppend<T>(s: seq<T>, y: T, x: T)
    requires x in s
    ensures Find(s + [y], x) == Find(s, x)
  {
    assert (s + [y])[0] == s[0];
    if s[0] != x {
      assert (s + [y])[1..] == s[1..] + [y];
      FindAppend(s[1..], y, x);
    }
  }

  /** An element missing from s and appended to it is found at the end. */
  lemma FindNew<T>(s: seq<T>, x: T)
    requires x !in s
    ensures Find(s + [x], x) == |s|
  {
    assert (s + [x])[|s|] == x;
  }

  /** std::find followed by vector::erase when found: the first x goes, the rest keep their order. */
  function RemoveFirst<T(==)>(s: seq<T>, x: T): (r: seq<T>)
    ensures x !in s ==> r == s
    ensures x in s ==> |r| == |s| - 1
  {
    if s == [] then []
    else if s[0] == x then s[1..]
    else [s[0]] + RemoveFirst(s[1..], x)
  }

  /** Exactly the first occurrence is cut out; what precedes and follows it stays in order. */
  lemma {:induction false} RemoveFirstSplices<T>(s: seq<T>, x: T)
    requires x in s
    ensures RemoveFirst(s, x) == s[..Find(s, x)] + s[Find(s, x) + 1..]
  {
    if s[0] != x {
      var t := s[1..];
      var i := Find(t, x);
      RemoveFirstSplices(t, x);
      assert RemoveFirst(s, x) == [s[0]] + (t[..i] + t[i + 1..]);
      assert [s[0]] + t[..i] == s[..i + 1];
      assert t[i + 1..] == s[i + 2..];
    }
  }

  /** One copy of x leaves and nothing else changes. */
  lemma {:induction false} RemoveFirstMultiset<T>(s: seq<T>, x: T)
    ensures multiset(RemoveFirst(s, x)) == multiset(s) - multiset{x}
  {
    if s != [] {
      assert s == [s[0]] + s[1..];
      if s[0] != x {
        RemoveFirstMultiset(s[1..], x);
      }
    }
  }

  /** The distinct elements of s, each where it first occurs. */
  function Distinct<T(==)>(s: seq<T>): (d: seq<T>)
    ensures |d| <= |s|
  {
    if s == [] then []
    else
      var d := Distinct(s[..|s| - 1]);
      if s[|s| - 1] in d then d else d + [s[|s| - 1]]
  }

  /** Extending a prefix by one element keeps it when already present and appends it otherwise. */
  lemma DistinctStep<T>(s: seq<T>, i: nat)
    requires i < |s|
    ensures Distinct(s[..i + 1]) == if s[i] in Distinct(s[..i]) then Distinct(s[..i]) else Distinct(s[..i]) + [s[i]]
  {
    assert s[..i + 1][..i] == s[..i];
  }

  /** Nothing is lost and nothing is invented. */
  lemma {:induction false} DistinctElements<T>(s: seq<T>, x: T)
    ensures x in Distinct(s) <==> x in s
  {
    if s != [] {
      DistinctElements(s[..|s| - 1], x);
      assert s == s[..|s| - 1] + [s[|s| - 1]];
    }
  }

  /** Every element occurs once. */
  lemma {:induction false} DistinctNoDuplicates<T>(s: seq<T>)
    ensures forall i, j :: 0 <= i < j < |Distinct(s)| ==> Distinct(s)[i] != Distinct(s)[j]
  {
    if s != [] {
      DistinctNoDuplicates(s[..|s| - 1]);
    }
  }

  /** The elements are ordered by where they first occur in s. */
  lemma {:induction false} DistinctInOrder<T>(s: seq<T>)
    ensures forall k, l :: 0 <= k < l < |Distinct(s)| ==> Find(s, Distinct(s)[k]) < Find(s, Distinct(s)[l])
  {
    if s != [] {
      var p, last := s[..|s| - 1], s[|s| - 1];
      assert s == p + [last];
      DistinctInOrder(p);
      FindStaysInPrefix(p, last);
      DistinctElements(p, last);
      var d := Distinct(p);
      if last !in d {
        assert Find(s, last) == |p|;
        assert Distinct(s) == d + [last];
      }
    }
  }

  /** Elements already kept from p are found where they were, before the appended one. */
  lemma FindStaysInPrefix<T>(p: seq<T>, last: T)
    ensures forall y <- Distinct(p) :: Find(p + [last], y) == Find(p, y) < |p|
  {
    forall y <- Distinct(p)
      ensures Find(p + [last], y) == Find(p, y) < |p|
    {
      DistinctElements(p, y);
      FindAppend(p, last, y);
    }
  }
}
