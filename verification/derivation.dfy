/**
  The pool of available towers: the towers of each selected category, one
  category after the other in the order the categories were selected.
 */
module Derivation {
  import opened Seqs
  import opened Catalog

  /** `t` is listed under one of the categories in `cats`. */
  predicate Offered(cats: seq<Category>, t: Tower) {
    exists c :: c in cats && Known(c) && t in Towers[c]
  }

  /** Sum of the sizes of the selected categories. */
  function TotalSize(cats: seq<Category>): nat
    requires AllKnown(cats)
  {
    if cats == [] then 0 else assert cats[0] in cats; |Towers[cats[0]]| + TotalSize(cats[1..])
  }

  /** The available towers for a category selection; its members are
      exactly the towers offered by the selected categories. */
  function Derive(cats: seq<Category>): (r: seq<Tower>)
    requires AllKnown(cats)
    ensures forall t :: t in r <==> Offered(cats, t)
  {
    if cats == [] then [] else assert cats[0] in cats; Towers[cats[0]] + Derive(cats[1..])
  }

  /** Deriving from a split selection concatenates the two derivations, so
      the pool keeps the order in which the categories were selected. */
  lemma {:induction false} DeriveAppend(a: seq<Category>, b: seq<Category>)
    requires AllKnown(a) && AllKnown(b)
    ensures AllKnown(a + b)
    ensures Derive(a + b) == Derive(a) + Derive(b)
  {
    if a == [] {
      assert a + b == b;
    } else {
      assert (a + b)[1..] == a[1..] + b;
      DeriveAppend(a[1..], b);
    }
  }

  /** A single selected category yields exactly its own list. */
  lemma DeriveSingle(c: Category)
    requires Known(c)
    ensures Derive([c]) == Towers[c]
  {
    assert [c][1..] == [];
  }

  /** The pool has as many entries as the selected categories have towers. */
  lemma {:induction false} DeriveLength(cats: seq<Category>)
    requires AllKnown(cats)
    ensures |Derive(cats)| == TotalSize(cats)
  {
    if cats != [] {
      DeriveLength(cats[1..]);
    }
  }

  /** A selection that names no category twice yields a pool without
      repeated towers. */
  lemma {:induction false} DeriveDistinct(cats: seq<Category>)
    requires AllKnown(cats)
    requires Distinct(cats)
    ensures Distinct(Derive(cats))
  {
    if cats != [] {
      var c, rest := cats[0], cats[1..];
      assert forall i, j :: 0 <= i < j < |rest| ==> rest[i] == cats[i + 1] && rest[j] == cats[j + 1];
      DeriveDistinct(rest);
      CategoriesPartitionTowers();
      DistinctConcat(Towers[c], Derive(rest));
    }
  }

  /** Selecting every category in key order yields the full catalog. */
  lemma DeriveAllCategories()
    ensures AllKnown(Keys)
    ensures Derive(Keys) == AllTowers
  {
    KeysEnumerateCatalog();
    DeriveSingle("Support");
    assert Keys == ["Primary", "Military", "Magic"] + ["Support"];
    DeriveAppend(["Primary", "Military", "Magic"], ["Support"]);
    DeriveSingle("Magic");
    DeriveAppend(["Primary", "Military"], ["Magic"]);
    DeriveSingle("Military");
    DeriveAppend(["Primary"], ["Military"]);
    DeriveSingle("Primary");
  }

  /** The loop of the source: start from an empty list and extend it with
      the towers of each selected category in turn. */
  method CollectAvailable(cats: seq<Category>) returns (available: seq<Tower>)
    requires AllKnown(cats)
    ensures available == Derive(cats)
  {
    available := [];
    var i := 0;
    while i < |cats|
      invariant 0 <= i <= |cats|
      invariant available == Derive(cats[..i])
    {
      DeriveAppend(cats[..i], [cats[i]]);
      DeriveSingle(cats[i]);
      assert cats[..i + 1] == cats[..i] + [cats[i]];
      available := available + Towers[cats[i]];
      i := i + 1;
    }
    assert cats[..i] == cats;
  }
}
