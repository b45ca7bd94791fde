/** Order-preserving selection from a sequence. */
module Sequences {

  /** `a` is `b` with some elements removed (and the rest in the same order). */
  predicate Subsequence<T(==)>(a: seq<T>, b: seq<T>)
    decreases |b|
  {
    a == [] || (b != [] && (if a[0] == b[0] then Subsequence(a[1..], b[1..]) else Subsequence(a, b[1..])))
  }

  lemma {:induction false} SubsequenceExtend<T>(a: seq<T>, b: seq<T>, x: T)
    requires Subsequence(a, b)
    ensures Subsequence(a, b + [x])
    ensures Subsequence(a + [x], b + [x])
    decreases |b|
  {
    if b == [] {
      assert a == [];
      assert [] + [x] == [x];
      assert ([x])[1..] == [];
    } else {
      assert (b + [x])[1..] == b[1..] + [x];
      if a == [] {
        assert Subsequence([], b[1..]);
        SubsequenceExtend([], b[1..], x);
        assert [] + [x] == [x];
        if x != b[0] {
          assert Subsequence([x], (b + [x])[1..]);
        }
      } else {
        assert (a + [x])[0] == a[0] && (a + [x])[1..] == a[1..] + [x];
        if a[0] == b[0] {
          SubsequenceExtend(a[1..], b[1..], x);
        } else {
          SubsequenceExtend(a, b[1..], x);
        }
      }
    }
  }
}
