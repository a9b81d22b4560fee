/** Sequences that hold the same elements in another order: taking one
    element out of both, putting one piece back into both, and mapping a
    function over both. */
module Permutations {

  /** `f` applied to every element. */
  function MapSeq<A, B>(f: A -> B, s: seq<A>): (r: seq<B>)
    ensures |r| == |s| && forall i :: 0 <= i < |s| ==> r[i] == f(s[i])
  {
    seq(|s|, i requires 0 <= i < |s| => f(s[i]))
  }

  /** Mapping keeps a permutation a permutation. */
  lemma {:induction false} MapPermutation<A, B>(f: A -> B, a: seq<A>, b: seq<A>)
    requires multiset(a) == multiset(b)
    ensures multiset(MapSeq(f, a)) == multiset(MapSeq(f, b))
    decreases |a|
  {
    if |a| > 0 {
      var x := a[|a| - 1];
      assert x in multiset(b);
      var j :| 0 <= j < |b| && b[j] == x;
      var a', b1, b2 := a[..|a| - 1], b[..j], b[j + 1..];
      assert a == a' + [x];
      assert b == b1 + [x] + b2;
      RemoveOne(a, b, a', b1, b2, x);
      MapPermutation(f, a', b1 + b2);
      MapConcat(f, a', [x]);
      MapConcat(f, b1 + [x], b2);
      MapConcat(f, b1, [x]);
      MapConcat(f, b1, b2);
      InsertOne(MapSeq(f, a), MapSeq(f, b), MapSeq(f, a'), MapSeq(f, b1), MapSeq(f, b2), MapSeq(f, b1 + b2), MapSeq(f, [x]));
    }
  }

  lemma MapConcat<A, B>(f: A -> B, a: seq<A>, b: seq<A>)
    ensures MapSeq(f, a + b) == MapSeq(f, a) + MapSeq(f, b)
  {
  }

  /** Taking the same element out of two permutations of each other. */
  lemma RemoveOne<T>(a: seq<T>, b: seq<T>, a': seq<T>, b1: seq<T>, b2: seq<T>, x: T)
    requires multiset(a) == multiset(b) && a == a' + [x] && b == b1 + [x] + b2
    ensures multiset(a') == multiset(b1 + b2)
  {
    assert multiset(a) == multiset(a') + multiset{x};
    assert multiset(b) == multiset(b1) + multiset{x} + multiset(b2);
    assert multiset(b1 + b2) == multiset(b1) + multiset(b2);
    assert multiset(a') == multiset(a) - multiset{x};
    assert multiset(b1 + b2) == multiset(b) - multiset{x};
  }

  /** Putting the same piece back into two permutations of each other. */
  lemma InsertOne<T>(a: seq<T>, b: seq<T>, a': seq<T>, b1: seq<T>, b2: seq<T>, b12: seq<T>, y: seq<T>)
    requires a == a' + y && b == b1 + y + b2 && b12 == b1 + b2
    requires multiset(a') == multiset(b12)
    ensures multiset(a) == multiset(b)
  {
    assert multiset(b) == multiset(b1) + multiset(y) + multiset(b2);
    assert multiset(b12) == multiset(b1) + multiset(b2);
  }
}
