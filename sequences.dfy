/**
 Sequence helpers shared by the scheduler model: distinctness, the element set
 of a sequence, Python's `s[:n]` slice, and the two shuffles. A shuffle is a
 nondeterministic choice of order, so every permutation is a possible outcome
 and every property proved about a shuffled list holds for all of them.
 */
module Sequences {

  function Min(a: int, b: int): int
  {
    if a <= b then a else b
  }

  function Max(a: int, b: int): int
  {
    if a <= b then b else a
  }

  /** No element occurs twice. */
  ghost predicate Distinct<T>(s: seq<T>)
  {
    forall i, j :: 0 <= i < j < |s| ==> s[i] != s[j]
  }

  /** The set of elements of a sequence. */
  ghost function Elems<T>(s: seq<T>): set<T>
  {
    set x | x in s
  }

  /** The length of Python's `s[:n]` for a list of length `len`: a negative
      bound counts from the end. */
  function SliceLength(len: nat, n: int): nat
  {
    if n >= 0 then Min(n, len) else Max(0, len + n)
  }

  /** Python's `s[:n]`. */
  function SliceTo<T>(s: seq<T>, n: int): (r: seq<T>)
    ensures |r| == SliceLength(|s|, n)
    ensures r == s[..|r|]
  {
    if n >= 0 then s[..Min(n, |s|)] else s[..Max(0, |s| + n)]
  }

  /** `random.shuffle`: any reordering of `s`. */
  method Shuffle<T>(s: seq<T>) returns (r: seq<T>)
    ensures multiset(r) == multiset(s)
    ensures |r| == |s|
  {
    r := [];
    var rest := s;
    while rest != []
      invariant multiset(r) + multiset(rest) == multiset(s)
      decreases |rest|
    {
      var i :| 0 <= i < |rest|;
      assert rest == rest[..i] + [rest[i]] + rest[i + 1..];
      r := r + [rest[i]];
      rest := rest[..i] + rest[i + 1..];
    }
    assert |multiset(r)| == |multiset(s)|;
  }

  /** A list comprehension over the keys of a dictionary followed by
      `random.shuffle`: the members of `s`, once each, in any order. */
  method Arrange<T>(s: set<T>) returns (r: seq<T>)
    ensures Distinct(r)
    ensures Elems(r) == s
    ensures |r| == |s|
  {
    r := [];
    var rest := s;
    while rest != {}
      invariant Distinct(r)
      invariant Elems(r) !! rest
      invariant Elems(r) + rest == s
      decreases rest
    {
      var x :| x in rest;
      assert Elems(r + [x]) == Elems(r) + {x};
      r := r + [x];
      rest := rest - {x};
    }
    DistinctCard(r);
  }

  lemma {:induction false} DistinctCard<T>(s: seq<T>)
    requires Distinct(s)
    ensures |Elems(s)| == |s|
  {
    if s != [] {
      assert Distinct(s[1..]);
      DistinctCard(s[1..]);
      assert Elems(s) == {s[0]} + Elems(s[1..]);
      assert s[0] !in Elems(s[1..]);
    }
  }

  lemma {:induction false} DistinctMultiplicity<T>(s: seq<T>, x: T)
    requires Distinct(s)
    ensures multiset(s)[x] <= 1
  {
    if s != [] {
      assert s == [s[0]] + s[1..];
      assert Distinct(s[1..]);
      DistinctMultiplicity(s[1..], x);
      if x == s[0] {
        assert x !in s[1..];
      }
    }
  }

  lemma RepeatedMultiplicity<T>(r: seq<T>, i: nat, j: nat)
    requires i < j < |r|
    ensures r[i] == r[j] ==> multiset(r)[r[i]] >= 2
  {
    assert r == r[..i] + [r[i]] + r[i + 1..j] + [r[j]] + r[j + 1..];
  }

  /** Reordering keeps a sequence free of duplicates. */
  lemma PermutationDistinct<T>(s: seq<T>, r: seq<T>)
    requires multiset(r) == multiset(s)
    requires Distinct(s)
    ensures Distinct(r)
    ensures Elems(r) == Elems(s)
  {
    forall i, j | 0 <= i < j < |r|
      ensures r[i] != r[j]
    {
      RepeatedMultiplicity(r, i, j);
      DistinctMultiplicity(s, r[i]);
    }
    forall x
      ensures x in Elems(r) <==> x in Elems(s)
    {
      assert x in r <==> x in multiset(r);
      assert x in s <==> x in multiset(s);
    }
  }

  /** Two duplicate-free sequences with no element in common concatenate to a
      duplicate-free sequence. */
  lemma DistinctConcat<T>(a: seq<T>, b: seq<T>)
    requires Distinct(a) && Distinct(b) && Elems(a) !! Elems(b)
    ensures Distinct(a + b)
    ensures Elems(a + b) == Elems(a) + Elems(b)
  {
    forall i, j | 0 <= i < j < |a + b|
      ensures (a + b)[i] != (a + b)[j]
    {
      if j < |a| {
      } else if i < |a| {
        assert (a + b)[i] in Elems(a) && (a + b)[j] in Elems(b);
      } else {
        assert (a + b)[i] == b[i - |a|] && (a + b)[j] == b[j - |a|];
      }
    }
  }
}
