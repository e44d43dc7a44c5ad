/** Facts about sequences used by several modules. */
module Seqs {

  /** No element occurs twice. */
  predicate Distinct<T(==)>(s: seq<T>)
  {
    forall i, j :: 0 <= i < j < |s| ==> s[i] != s[j]
  }

  /** `p` holds of every element, stated one element at a time from the end. */
  predicate AllOf<T>(p: T -> bool, s: seq<T>)
  {
    s == [] || (AllOf(p, s[..|s| - 1]) && p(s[|s| - 1]))
  }

  lemma {:induction false} AllOfEach<T>(p: T -> bool, s: seq<T>)
    ensures AllOf(p, s) <==> forall j :: 0 <= j < |s| ==> p(s[j])
  {
    if s != [] {
      var init := s[..|s| - 1];
      AllOfEach(p, init);
      assert forall j :: 0 <= j < |init| ==> init[j] == s[j];
    }
  }

  /** Two duplicate-free sequences with no element in common concatenate to a
      duplicate-free sequence. */
  lemma DistinctConcat<T>(a: seq<T>, b: seq<T>)
    requires Distinct(a) && Distinct(b)
    requires forall x :: x in a ==> x !in b
    ensures Distinct(a + b)
  {
    forall i, j | 0 <= i < j < |a + b|
      ensures (a + b)[i] != (a + b)[j]
    {
      if i < |a| && |a| <= j {
        assert (a + b)[i] in a && (a + b)[j] in b;
      }
    }
  }
}
