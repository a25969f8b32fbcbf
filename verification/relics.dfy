/** The relic catalog page (Relics.jsx): its rank table and the list it shows. */
module Relics {
  import opened Wrappers
  import opened GameData
  import opened Catalog

  /** `rarityOrder` of the relic page. */
  const RarityOrder: map<string, nat> := map["THƯỜNG" := 0, "HIẾM" := 1, "SỬ THI" := 2]

  /** The ranks the table gives; an unlisted or missing rarity ranks 0 and so ties with "THƯỜNG". */
  lemma RankTable()
    ensures Rank(RarityOrder, Some("THƯỜNG")) == 0 && Rank(RarityOrder, Some("HIẾM")) == 1
    ensures Rank(RarityOrder, Some("SỬ THI")) == 2
    ensures forall r :: r !in {"THƯỜNG", "HIẾM", "SỬ THI"} ==> Rank(RarityOrder, Some(r)) == Rank(RarityOrder, Some("THƯỜNG"))
    ensures Rank(RarityOrder, None) == Rank(RarityOrder, Some("THƯỜNG"))
  {
  }

  /** `sortedRelics`: the filtered relics, sorted on a copy, hence a permutation of the filtered list. */
  function SortedRelics(relics: seq<Card>, search: string, rarity: string, order: string,
                        lower: string -> string, locale: (string, string) -> int): (r: seq<Card>)
    ensures multiset(r) == multiset(FilterCards(relics, search, rarity, lower))
    ensures forall c :: c in r ==> c in relics
  {
    var filtered := FilterCards(relics, search, rarity, lower);
    var r := SortCards(filtered, order, RarityOrder, locale);
    assert forall c :: c in r ==> c in multiset(filtered);
    r
  }
}
