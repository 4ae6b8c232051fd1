/**
 Finite chains without repetition: the abstract content of an intrusive list.
 The timing wheel keeps one chain per bucket.
 */
module Chains {

  ghost predicate NoDup<T>(s: seq<T>) {
    forall i, j :: 0 <= i < j < |s| ==> s[i] != s[j]
  }

  /** The chain with the first occurrence of `x` unlinked. */
  function Without<T(==)>(s: seq<T>, x: T): (r: seq<T>)
    ensures x !in s ==> r == s
    ensures x in s ==> |r| == |s| - 1
  {
    if s == [] then [] else if s[0] == x then s[1..] else [s[0]] + Without(s[1..], x)
  }

  /** Unlinking drops exactly `x` and keeps the order of everything else. */
  lemma {:induction false} WithoutSplits<T>(s: seq<T>, x: T, k: nat)
    requires k < |s| && s[k] == x && x !in s[..k]
    ensures Without(s, x) == s[..k] + s[k+1..]
  {
    if k > 0 {
      assert x != s[0] by { assert s[..k][0] == s[0]; }
      assert s[1..][..k-1] == s[..k][1..];
      WithoutSplits(s[1..], x, k - 1);
      assert s[1..][k..] == s[k+1..];
      assert [s[0]] + s[1..][..k-1] == s[..k];
    }
  }

  lemma WithoutKeepsTheRest<T>(s: seq<T>, x: T)
    requires NoDup(s)
    ensures NoDup(Without(s, x))
    ensures x !in Without(s, x)
    ensures forall y :: y != x ==> (y in Without(s, x) <==> y in s)
  {
    if x in s {
      var k :| 0 <= k < |s| && s[k] == x;
      assert x !in s[..k];
      WithoutSplits(s, x, k);
      var r := s[..k] + s[k+1..];
      forall y | y != x && y in s ensures y in r {
        var i :| 0 <= i < |s| && s[i] == y;
        assert i != k;
        assert r[if i < k then i else i - 1] == y;
      }
    }
  }
}
