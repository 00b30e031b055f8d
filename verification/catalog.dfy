/**
  The fixed tower catalog of the companion app: four categories, each an
  ordered list of tower names, and the image path shown for every tower.
 */
module Catalog {
  import opened Seqs

  type Category = string
  type Tower = string

  const PrimaryTowers: seq<Tower> := [
    "Dart Monkey", "Boomerang Monkey", "Bomb Shooter",
    "Tack Shooter", "Ice Monkey", "Glue Gunner"
  ]

  const MilitaryTowers: seq<Tower> := [
    "Sniper Monkey", "Monkey Sub", "Monkey Buccaneer", "Monkey Ace",
    "Heli Pilot", "Mortar Monkey", "Dartling Gunner"
  ]

  const MagicTowers: seq<Tower> := [
    "Wizard Monkey", "Super Monkey", "Ninja Monkey",
    "Alchemist", "Druid", "Mermonkey"
  ]

  const SupportTowers: seq<Tower> := [
    "Banana Farm", "Spike Factory", "Monkey Village",
    "Engineer Monkey", "Beast Handler"
  ]

  /** The category names in the catalog's declaration order, which is the
      order the source's dictionary yields its keys in. */
  const Keys: seq<Category> := ["Primary", "Military", "Magic", "Support"]

  /** Category name to its ordered tower list. */
  const Towers: map<Category, seq<Tower>> := map[
    "Primary" := PrimaryTowers,
    "Military" := MilitaryTowers,
    "Magic" := MagicTowers,
    "Support" := SupportTowers
  ]

  /** Every tower of the catalog, category after category in key order. */
  const AllTowers: seq<Tower> := PrimaryTowers + MilitaryTowers + MagicTowers + SupportTowers

  /** Tower name to the path of its picture. */
  const MonkeyImages: map<Tower, string> := map[
    "Dart Monkey" := "images/dart_monkey.png",
    "Boomerang Monkey" := "images/boomerang_monkey.png",
    "Bomb Shooter" := "images/bomb_shooter.png",
    "Tack Shooter" := "images/tack_shooter.png",
    "Ice Monkey" := "images/ice_monkey.png",
    "Glue Gunner" := "images/glue_gunner.png",
    "Sniper Monkey" := "images/sniper_monkey.png",
    "Monkey Sub" := "images/monkey_sub.png",
    "Monkey Buccaneer" := "images/monkey_buccaneer.png",
    "Monkey Ace" := "images/monkey_ace.png",
    "Heli Pilot" := "images/heli_pilot.png",
    "Mortar Monkey" := "images/mortar_monkey.png",
    "Dartling Gunner" := "images/dartling_gunner.png",
    "Wizard Monkey" := "images/wizard_monkey.png",
    "Super Monkey" := "images/super_monkey.png",
    "Ninja Monkey" := "images/ninja_monkey.png",
    "Alchemist" := "images/alchemist.png",
    "Druid" := "images/druid.png",
    "Mermonkey" := "images/mermonkey.png",
    "Banana Farm" := "images/banana_farm.png",
    "Spike Factory" := "images/spike_factory.png",
    "Monkey Village" := "images/monkey_village.png",
    "Engineer Monkey" := "images/engineer_monkey.png",
    "Beast Handler" := "images/beast_handler.png"
  ]

  /** `c` names a category of the catalog. */
  predicate Known(c: Category) {
    c in Towers
  }

  /** Every name in `cats` is a catalog category. */
  predicate AllKnown(cats: seq<Category>) {
    forall c :: c in cats ==> Known(c)
  }

  /** The key order lists every category exactly once and nothing else. */
  lemma KeysEnumerateCatalog()
    ensures Distinct(Keys)
    ensures forall c :: c in Keys <==> Known(c)
  {
  }

  /** The 24 tower names are pairwise distinct across all four categories. */
  lemma TowerNamesDistinct()
    ensures |AllTowers| == 24
    ensures Distinct(AllTowers)
  {
  }

  /** Each category lists its towers without repetition, and no tower
      belongs to two categories. */
  lemma CategoriesPartitionTowers()
    ensures forall c :: Known(c) ==> Distinct(Towers[c])
    ensures forall c, d, t :: Known(c) && Known(d) && t in Towers[c] && t in Towers[d] ==> c == d
    ensures forall t :: t in AllTowers <==> exists c :: Known(c) && t in Towers[c]
  {
    TowerNamesDistinct();
    DistinctConcat(PrimaryTowers + MilitaryTowers + MagicTowers, SupportTowers);
    DistinctConcat(PrimaryTowers + MilitaryTowers, MagicTowers);
    DistinctConcat(PrimaryTowers, MilitaryTowers);
    forall t | t in AllTowers
      ensures exists c :: Known(c) && t in Towers[c]
    {
      if t in PrimaryTowers {
        assert t in Towers["Primary"];
      } else if t in MilitaryTowers {
        assert t in Towers["Military"];
      } else if t in MagicTowers {
        assert t in Towers["Magic"];
      } else {
        assert t in Towers["Support"];
      }
    }
  }

  /** The image table has exactly the catalog's towers as keys, so looking
      up the picture of any catalog tower never fails. */
  lemma EveryTowerHasImage()
    ensures forall c, t :: Known(c) && t in Towers[c] ==> t in MonkeyImages
    ensures forall t :: t in MonkeyImages <==> t in AllTowers
  {
  }
}
