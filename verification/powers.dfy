/** The power catalog page (Powers.jsx): its rank table and the list it shows. */
module Powers {
  import opened Wrappers
  import opened GameData
  import opened Catalog

  /** `rarityOrder` of the power page. */
  const RarityOrder: map<string, nat> := map["THƯỜNG" := 0, "HIẾM" := 1, "SỬ THI" := 2, "HUYỀN THOẠI" := 3]

  /** The ranks the table gives; every other rarity, and a missing one, ranks 0 like "THƯỜNG". */
  lemma RankTable()
    ensures Rank(RarityOrder, Some("THƯỜNG")) == 0 && Rank(RarityOrder, Some("HIẾM")) == 1
    ensures Rank(RarityOrder, Some("SỬ THI")) == 2 && Rank(RarityOrder, Some("HUYỀN THOẠI")) == 3
    ensures forall r :: r !in {"THƯỜNG", "HIẾM", "SỬ THI", "HUYỀN THOẠI"} ==> Rank(RarityOrder, Some(r)) == 0
    ensures Rank(RarityOrder, None) == 0
  {
  }

  /** `sortedPowers`: the filtered powers, sorted on a copy, hence a permutation of the filtered list. */
  function SortedPowers(powers: seq<Card>, search: string, rarity: string, order: string,
                       lower: string -> string, locale: (string, string) -> int): (r: seq<Card>)
    ensures multiset(r) == multiset(FilterCards(powers, search, rarity, lower))
    ensures forall c :: c in r ==> c in powers
  {
    var filtered := FilterCards(powers, search, rarity, lower);
    var r := SortCards(filtered, order, RarityOrder, locale);
    assert forall c :: c in r ==> c in multiset(filtered);
    r
  }
}
