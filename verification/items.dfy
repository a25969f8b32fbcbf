/** The item catalog page (Items.jsx): its rank table and the list it shows. */
module Items {
  import opened Wrappers
  import opened GameData
  import opened Catalog

  /** `rarityOrder` of the item page. */
  const RarityOrder: map<string, nat> := map["ĐẶC BIỆT" := 0, "THƯỜNG" := 1, "HIẾM" := 2, "SỬ THI" := 3]

  /** The ranks the table gives; every other rarity, and a missing one, ranks 0 like "ĐẶC BIỆT". */
  lemma RankTable()
    ensures Rank(RarityOrder, Some("ĐẶC BIỆT")) == 0 && Rank(RarityOrder, Some("THƯỜNG")) == 1
    ensures Rank(RarityOrder, Some("HIẾM")) == 2 && Rank(RarityOrder, Some("SỬ THI")) == 3
    ensures forall r :: r !in {"ĐẶC BIỆT", "THƯỜNG", "HIẾM", "SỬ THI"} ==> Rank(RarityOrder, Some(r)) == 0
    ensures Rank(RarityOrder, None) == 0
  {
  }

  /** `sortedItems`: the filtered items, sorted on a copy, hence a permutation of the filtered list. */
  function SortedItems(items: seq<Card>, search: string, rarity: string, order: string,
                       lower: string -> string, locale: (string, string) -> int): (r: seq<Card>)
    ensures multiset(r) == multiset(FilterCards(items, search, rarity, lower))
    ensures forall c :: c in r ==> c in items
  {
    var filtered := FilterCards(items, search, rarity, lower);
    var r := SortCards(filtered, order, RarityOrder, locale);
    assert forall c :: c in r ==> c in multiset(filtered);
    r
  }
}
