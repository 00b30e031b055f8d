/**
  Small facts about sequences without repeated elements, shared by the
  catalog, the derivation of the tower pool and the team draw.
 */
module Seqs {

  /** No value occurs twice in `s`. */
  predicate Distinct<T(==)>(s: seq<T>) {
    forall i, j :: 0 <= i < j < |s| ==> s[i] != s[j]
  }

  /** Every element of `a` is an element of `b` (order and multiplicity ignored). */
  predicate SubsetOf<T(==)>(a: seq<T>, b: seq<T>) {
    forall x :: x in a ==> x in b
  }

  /** A concatenation repeats no value exactly when neither part does and
      the parts share no value. */
  lemma DistinctConcat<T>(a: seq<T>, b: seq<T>)
    ensures Distinct(a + b) <==> Distinct(a) && Distinct(b) && (forall x :: x in a ==> x !in b)
  {
    var ab := a + b;
    if Distinct(ab) {
      assert forall i :: 0 <= i < |a| ==> ab[i] == a[i];
      assert forall j :: 0 <= j < |b| ==> ab[|a| + j] == b[j];
    }
    if Distinct(a) && Distinct(b) && (forall x :: x in a ==> x !in b) {
      forall i, j | 0 <= i < j < |ab|
        ensures ab[i] != ab[j]
      {
        if j < |a| {
          assert ab[i] == a[i] && ab[j] == a[j];
        } else if |a| <= i {
          assert ab[i] == b[i - |a|] && ab[j] == b[j - |a|];
        } else {
          assert ab[i] == a[i] && ab[j] == b[j - |a|];
          assert a[i] in a && b[j - |a|] in b;
        }
      }
    }
  }

  /** A sequence repeats no value exactly when every value occurs at most
      once in its multiset. */
  lemma {:induction false} DistinctByCount<T>(s: seq<T>)
    ensures Distinct(s) <==> forall x :: multiset(s)[x] <= 1
  {
    if s == [] {
    } else {
      var h, t := s[0], s[1..];
      assert s == [h] + t;
      DistinctByCount(t);
      DistinctConcat([h], t);
      assert multiset(s) == multiset{h} + multiset(t);
      if Distinct(s) {
        forall x
          ensures multiset(s)[x] <= 1
        {
          if x == h {
            assert h !in t;
            assert multiset(t)[h] == 0;
          }
        }
      }
      if forall x :: multiset(s)[x] <= 1 {
        assert multiset(s)[h] <= 1;
        assert multiset(t)[h] == 0;
        assert h !in t;
        assert forall x :: multiset(t)[x] <= multiset(s)[x];
      }
    }
  }

  /** Taking values out of a sequence without replacement keeps them distinct
      when the source was. */
  lemma SubMultisetDistinct<T>(a: seq<T>, b: seq<T>)
    requires multiset(a) <= multiset(b)
    requires Distinct(b)
    ensures Distinct(a)
  {
    DistinctByCount(a);
    DistinctByCount(b);
    assert forall x :: multiset(a)[x] <= multiset(b)[x];
  }
}
