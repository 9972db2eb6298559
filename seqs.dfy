/** Sequence operations shared by the controllers: `[...new Set(xs)]`
    (order-preserving de-duplication), first occurrences, sums. */
module Seqs {

  predicate NoDuplicates<T(==)>(s: seq<T>)
  {
    forall i, j :: 0 <= i < j < |s| ==> s[i] != s[j]
  }

  /** `[...new Set(s)]`: every element of `s` once, at the place of its first
      occurrence. Defined element by element from the left, as `Set` inserts. */
  function Distinct<T(==,!new)>(s: seq<T>): (r: seq<T>)
    ensures NoDuplicates(r)
    ensures forall x :: x in r <==> x in s
    ensures |r| <= |s|
    decreases |s|
  {
    if s == [] then []
    else
      var init := Distinct(s[..|s| - 1]);
      if s[|s| - 1] in s[..|s| - 1] then init else init + [s[|s| - 1]]
  }

  /** Index of the first occurrence of `x` in `s`. */
  function FirstIndex<T(==)>(s: seq<T>, x: T): (i: nat)
    requires x in s
    ensures i < |s| && s[i] == x && x !in s[..i]
  {
    if s[0] == x then 0 else 1 + FirstIndex(s[1..], x)
  }

  lemma FirstIndexOfPrefix<T>(s: seq<T>, t: seq<T>, x: T)
    requires x in s
    ensures x in s + t && FirstIndex(s + t, x) == FirstIndex(s, x)
  {
    var i := FirstIndex(s, x);
    var u := s + t;
    assert u[i] == x;
    assert forall j :: 0 <= j < i ==> s[..i][j] != x;
    var k := FirstIndex(u, x);
    assert forall j :: 0 <= j < k ==> u[..k][j] != x;
    assert k == i;
  }

  /** `Distinct` keeps the order of first occurrences. */
  lemma {:induction false} DistinctOrder<T(!new)>(s: seq<T>, i: nat, j: nat)
    requires i < j < |Distinct(s)|
    ensures Distinct(s)[i] in s && Distinct(s)[j] in s
    ensures FirstIndex(s, Distinct(s)[i]) < FirstIndex(s, Distinct(s)[j])
    decreases |s|
  {
    var p := s[..|s| - 1];
    var x := s[|s| - 1];
    assert s == p + [x];
    var d := Distinct(s);
    var a, b := d[i], d[j];
    if j < |Distinct(p)| {
      DistinctOrder(p, i, j);
      FirstIndexOfPrefix(p, [x], a);
      FirstIndexOfPrefix(p, [x], b);
    } else {
      // b is the last element, appended because x is new
      assert x !in p && b == x;
      assert a in Distinct(p) && a in p;
      FirstIndexOfPrefix(p, [x], a);
      assert FirstIndex(s, b) == |s| - 1 by {
        var k := FirstIndex(s, b);
        assert forall m :: 0 <= m < |p| ==> p[m] != x;
        assert k == |s| - 1;
      }
    }
  }

  /** On a sequence without duplicates `Distinct` changes nothing (so it is idempotent). */
  lemma {:induction false} DistinctOfDistinct<T(!new)>(s: seq<T>)
    requires NoDuplicates(s)
    ensures Distinct(s) == s
    decreases |s|
  {
    if s != [] {
      var p := s[..|s| - 1];
      assert s[|s| - 1] !in p by {
        assert forall k :: 0 <= k < |p| ==> p[k] == s[k];
      }
      DistinctOfDistinct(p);
      assert p + [s[|s| - 1]] == s;
    }
  }

  /** Appending one element: the step a loop over `Set.add` takes. */
  lemma DistinctSnoc<T(!new)>(s: seq<T>, x: T)
    ensures Distinct(s + [x]) == if x in s then Distinct(s) else Distinct(s) + [x]
  {
    assert (s + [x])[..|s|] == s;
  }

  /** Elements of `s` that satisfy `p`, in order. */
  function Filter<T(!new)>(s: seq<T>, p: T -> bool): (r: seq<T>)
    ensures |r| <= |s|
    ensures forall x :: x in r <==> x in s && p(x)
    decreases |s|
  {
    if s == [] then []
    else Filter(s[..|s| - 1], p) + (if p(s[|s| - 1]) then [s[|s| - 1]] else [])
  }

  lemma FilterSnoc<T(!new)>(s: seq<T>, x: T, p: T -> bool)
    ensures Filter(s + [x], p) == Filter(s, p) + (if p(x) then [x] else [])
  {
    assert (s + [x])[..|s|] == s;
  }

  function Sum(s: seq<int>): int
    decreases |s|
  {
    if s == [] then 0 else Sum(s[..|s| - 1]) + s[|s| - 1]
  }

  lemma SumSnoc(s: seq<int>, x: int)
    ensures Sum(s + [x]) == Sum(s) + x
  {
    assert (s + [x])[..|s|] == s;
  }

  /** The first occurrence is where `x` occurs with no earlier copy. */
  lemma FirstIndexAt<T>(s: seq<T>, x: T, j: nat)
    requires j < |s| && s[j] == x && x !in s[..j]
    ensures x in s && FirstIndex(s, x) == j
  {
    assert s[j] in s;
    var i := FirstIndex(s, x);
    assert forall m :: 0 <= m < j ==> s[..j][m] != x;
    assert forall m :: 0 <= m < i ==> s[..i][m] != x;
  }

  /** `Distinct` of a prefix is a prefix of `Distinct`. */
  lemma {:induction false} DistinctPrefix<T(!new)>(s: seq<T>, n: nat)
    requires n <= |s|
    ensures |Distinct(s[..n])| <= |Distinct(s)|
    ensures Distinct(s[..n]) == Distinct(s)[..|Distinct(s[..n])|]
    decreases |s|
  {
    if n < |s| {
      var p := s[..|s| - 1];
      assert s[..n] == p[..n];
      DistinctPrefix(p, n);
      assert s == p + [s[|s| - 1]];
      DistinctSnoc(p, s[|s| - 1]);
    } else {
      assert s[..n] == s;
    }
  }

  lemma AppendAssoc<T>(a: seq<T>, b: seq<T>, c: seq<T>)
    ensures a + (b + c) == (a + b) + c
  {
  }

  lemma NoDuplicatesSnoc<T>(s: seq<T>, x: T)
    ensures NoDuplicates(s + [x]) <==> NoDuplicates(s) && x !in s
  {
    var u := s + [x];
    assert forall i :: 0 <= i < |s| ==> s[i] == u[i];
    assert u[|s|] == x;
  }

  /** No duplicates in `a + b`: none in `a`, and each element of `b` is new
      when it is reached. */
  lemma {:induction false} NoDuplicatesAppend<T>(a: seq<T>, b: seq<T>)
    ensures NoDuplicates(a + b)
            <==> NoDuplicates(a) && forall i :: 0 <= i < |b| ==> b[i] !in a + b[..i]
    decreases |b|
  {
    if b == [] {
      assert a + b == a;
    } else {
      var n := |b| - 1;
      var p := b[..n];
      NoDuplicatesAppend(a, p);
      assert a + b == (a + p) + [b[n]];
      NoDuplicatesSnoc(a + p, b[n]);
      assert forall i :: 0 <= i < n ==> p[i] == b[i] && p[..i] == b[..i];
    }
  }
}
