/** Small facts about sequence concatenation, stated once for every element type. */
module Seqs {
  lemma Assoc<T>(a: seq<T>, b: seq<T>, c: seq<T>)
    ensures (a + b) + c == a + (b + c)
  {
  }

  lemma Units<T>(a: seq<T>)
    ensures [] + a == a && a + [] == a
  {
  }

  /** `t` is a suffix of `s`. */
  predicate EndsWith<T(==)>(s: seq<T>, t: seq<T>) {
    |t| <= |s| && s[|s| - |t|..] == t
  }

  lemma EndsWithSelf<T>(t: seq<T>)
    ensures EndsWith(t, t)
  {
    assert t[|t| - |t|..] == t;
  }

  lemma EndsWithAppend<T>(a: seq<T>, b: seq<T>, t: seq<T>)
    requires EndsWith(b, t)
    ensures EndsWith(a + b, t)
  {
    SuffixOfAppend(a, b, |t|);
  }

  lemma SuffixOfAppend<T>(a: seq<T>, b: seq<T>, n: nat)
    requires n <= |b|
    ensures (a + b)[|a + b| - n..] == b[|b| - n..]
  {
  }

  /** Extending a prefix accumulator by the next element. */
  lemma PushPrefix<T>(acc: seq<T>, all: seq<T>, j: int)
    requires 0 <= j < |all|
    ensures (acc + all[..j]) + [all[j]] == acc + all[..j + 1]
  {
    assert all[..j + 1] == all[..j] + [all[j]];
  }

  lemma WholePrefix<T>(all: seq<T>)
    ensures all[..|all|] == all
  {
  }

  /** Two sequences related pointwise by f stay so when both are extended. */
  lemma MapAppend<A, B>(a1: seq<A>, a2: seq<A>, b1: seq<B>, b2: seq<B>, f: A -> B)
    requires |a1| == |b1| && |a2| == |b2|
    requires forall k :: 0 <= k < |a1| ==> b1[k] == f(a1[k])
    requires forall k :: 0 <= k < |a2| ==> b2[k] == f(a2[k])
    ensures forall k :: 0 <= k < |a1 + a2| ==> (b1 + b2)[k] == f((a1 + a2)[k])
  {
    forall k | 0 <= k < |a1 + a2|
      ensures (b1 + b2)[k] == f((a1 + a2)[k])
    {
      if k >= |a1| {
        assert (a1 + a2)[k] == a2[k - |a1|];
      }
    }
  }
}
