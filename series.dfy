/** The series letters of a market: the characters from a start letter to an
    end letter, by character code, without F, I and O. Used by the backend's
    ticket expansion and by the frontend's series generator. */
module Series {
  import Seqs

  predicate Increasing(s: seq<char>)
  {
    forall i, j :: 0 <= i < j < |s| ==> s[i] < s[j]
  }

  predicate IsScalar(code: int)
  {
    0 <= code < 0xD800 || 0xE000 <= code < 0x11_0000
  }

  /** The characters whose codes run from `lo` to `hi` (`String.fromCharCode(lo + i)`),
      in code order. */
  function CharRange(lo: int, hi: int): (r: seq<char>)
    ensures Increasing(r)
    ensures forall i :: 0 <= i < |r| ==> lo <= r[i] as int <= hi
    ensures forall c: char :: lo <= c as int <= hi ==> c in r
    decreases hi - lo
  {
    if lo > hi then []
    else if IsScalar(lo) then [lo as char] + CharRange(lo + 1, hi)
    else CharRange(lo + 1, hi)
  }

  predicate Excluded(c: char)
  {
    c == 'F' || c == 'I' || c == 'O'
  }

  predicate Allowed(c: char)
  {
    !Excluded(c)
  }

  /** `Array.from` over the codes from `start` to `end`, filtered of F, I and O. */
  function Alphabet(start: char, end: char): (r: seq<char>)
    ensures Increasing(r)
    ensures forall c :: c in r <==> start <= c <= end && !Excluded(c)
  {
    var all := CharRange(start as int, end as int);
    FilterIncreasing(all);
    Seqs.Filter(all, Allowed)
  }

  lemma {:induction false} FilterIncreasing(s: seq<char>)
    requires Increasing(s)
    ensures Increasing(Seqs.Filter(s, Allowed))
    decreases |s|
  {
    if s != [] {
      var p := s[..|s| - 1];
      FilterIncreasing(p);
      var f := Seqs.Filter(p, Allowed);
      assert forall k :: 0 <= k < |f| ==> f[k] in p;
      assert forall k :: 0 <= k < |p| ==> p[k] < s[|s| - 1];
    }
  }

  /** Two increasing sequences with the same elements are equal. */
  lemma {:induction false} IncreasingUnique(a: seq<char>, b: seq<char>)
    requires Increasing(a) && Increasing(b)
    requires forall c :: c in a <==> c in b
    ensures a == b
    decreases |a|
  {
    if a != [] && b != [] {
      assert b[0] in a && a[0] in b;
      var ka :| 0 <= ka < |a| && a[ka] == b[0];
      var kb :| 0 <= kb < |b| && b[kb] == a[0];
      assert a[0] <= a[ka];
      assert b[0] <= b[kb];
      forall c
        ensures c in a[1..] <==> c in b[1..]
      {
        assert c in a[1..] <==> c in a && c != a[0];
        assert c in b[1..] <==> c in b && c != b[0];
      }
      IncreasingUnique(a[1..], b[1..]);
      assert a == [a[0]] + a[1..] && b == [b[0]] + b[1..];
    } else {
      HeadIn(a);
      HeadIn(b);
    }
  }

  lemma HeadIn(s: seq<char>)
    ensures s == [] || s[0] in s
  {
  }

  /** The part of an increasing sequence between two of its own elements is
      everything in it that lies between them. */
  lemma IncreasingSliceElements(s: seq<char>, i: nat, j: nat)
    requires Increasing(s) && i <= j < |s|
    ensures forall c :: c in s[i..j + 1] <==> c in s && s[i] <= c <= s[j]
  {
    forall c | c in s && s[i] <= c <= s[j]
      ensures c in s[i..j + 1]
    {
      var k :| 0 <= k < |s| && s[k] == c;
      assert i <= k;
      assert k <= j;
      assert s[i..j + 1][k - i] == c;
    }
    forall c | c in s[i..j + 1]
      ensures c in s && s[i] <= c <= s[j]
    {
      var k :| i <= k <= j && s[k] == c;
      assert k == i || s[i] < s[k];
      assert k == j || s[k] < s[j];
    }
  }
}
