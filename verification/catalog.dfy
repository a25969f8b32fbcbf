/**
  The query shared by the item, power and relic catalog pages: a
  case-insensitive name search, a rarity filter, a comparator sort over a
  copy of the filtered list, and the list of rarities offered in the
  filter. `toLowerCase` and `localeCompare` are parameters, since their
  Unicode rules are not part of this model.
*/
module Catalog {
  import opened Wrappers
  import opened Seqs
  import opened Sorting
  import opened GameData
  import Text

  /** The search and rarity tests of one card. */
  predicate Matches(c: Card, search: string, rarity: string, lower: string -> string) {
    && Text.Includes(lower(NameOf(c.name)), lower(search))
    && (rarity == "" || c.rarity == Some(rarity))
  }

  /** The filtered catalog: exactly the cards whose folded name contains the folded search term and whose rarity is the selected one, if any. */
  function FilterCards(cards: seq<Card>, search: string, rarity: string, lower: string -> string): (r: seq<Card>)
    ensures forall c :: c in r <==>
      && c in cards
      && Text.Includes(lower(NameOf(c.name)), lower(search))
      && (rarity == "" || c.rarity == Some(rarity))
  {
    Filter(cards, (c: Card) => Matches(c, search, rarity, lower))
  }

  /** The filter keeps the catalog order. */
  lemma FilterCardsOrder(cards: seq<Card>, search: string, rarity: string, lower: string -> string)
    ensures IsSubsequence(FilterCards(cards, search, rarity, lower), cards)
  {
    FilterIsSubsequence(cards, (c: Card) => Matches(c, search, rarity, lower));
  }

  /** An empty search and no selected rarity give the whole catalog in order. */
  lemma EmptyFiltersKeepAll(cards: seq<Card>, lower: string -> string)
    requires lower("") == ""
    ensures FilterCards(cards, "", "", lower) == cards
  {
    forall c | c in cards ensures Matches(c, "", "", lower) {
      Text.IncludesEmpty(lower(NameOf(c.name)));
    }
    FilterAll(cards, (c: Card) => Matches(c, "", "", lower));
  }

  /** `rarityOrder[rarity] || 0`: the listed rank, and 0 for a missing or unlisted rarity. */
  function Rank(table: map<string, nat>, rarity: Option<string>): (r: nat)
    ensures rarity.Some? && rarity.value in table ==> r == table[rarity.value]
    ensures !(rarity.Some? && rarity.value in table) ==> r == 0
  {
    if rarity.Some? && rarity.value in table then table[rarity.value] else 0
  }

  /** The comparator the pages pass to `sort`, selected by the sort key. */
  function CompareCards(order: string, table: map<string, nat>, locale: (string, string) -> int, a: Card, b: Card): (r: int)
    ensures order == "asc" ==> r == locale(NameOf(a.name), NameOf(b.name))
    ensures order == "desc" ==> r == locale(NameOf(b.name), NameOf(a.name))
    ensures order == "rarityAsc" ==> (r <= 0 <==> Rank(table, a.rarity) <= Rank(table, b.rarity))
    ensures order == "rarityDesc" ==> (r <= 0 <==> Rank(table, b.rarity) <= Rank(table, a.rarity))
    ensures order == "rarityAsc" || order == "rarityDesc" ==> (r == 0 <==> Rank(table, a.rarity) == Rank(table, b.rarity))
    ensures order !in ["asc", "desc", "rarityAsc", "rarityDesc"] ==> r == 0
  {
    if order == "asc" then locale(NameOf(a.name), NameOf(b.name))
    else if order == "desc" then locale(NameOf(b.name), NameOf(a.name))
    else if order == "rarityAsc" then Rank(table, a.rarity) - Rank(table, b.rarity)
    else if order == "rarityDesc" then Rank(table, b.rarity) - Rank(table, a.rarity)
    else 0
  }

  function Comparator(order: string, table: map<string, nat>, locale: (string, string) -> int): (Card, Card) -> int {
    (a: Card, b: Card) => CompareCards(order, table, locale, a, b)
  }

  /** `[...filtered].sort(cmp)`: a new sequence holding the same cards. */
  function SortCards(cards: seq<Card>, order: string, table: map<string, nat>, locale: (string, string) -> int): (r: seq<Card>)
    ensures |r| == |cards| && multiset(r) == multiset(cards)
  {
    StableSort(cards, Comparator(order, table, locale))
  }

  /** `rarityAsc` gives non-decreasing ranks, `rarityDesc` non-increasing ones. */
  lemma SortByRank(cards: seq<Card>, order: string, table: map<string, nat>, locale: (string, string) -> int)
    requires order == "rarityAsc" || order == "rarityDesc"
    ensures var r := SortCards(cards, order, table, locale);
      forall i, j :: 0 <= i < j < |r| ==>
        if order == "rarityAsc" then Rank(table, r[i].rarity) <= Rank(table, r[j].rarity)
        else Rank(table, r[i].rarity) >= Rank(table, r[j].rarity)
  {
    SortSorted(cards, Comparator(order, table, locale));
  }

  /** The cards of one rank. */
  function RankIs(table: map<string, nat>, k: nat): Card -> bool {
    (c: Card) => Rank(table, c.rarity) == k
  }

  /** Under a rarity sort, cards of equal rank keep their filtered order. */
  lemma SortByRankStable(cards: seq<Card>, order: string, table: map<string, nat>, locale: (string, string) -> int, k: nat)
    requires order == "rarityAsc" || order == "rarityDesc"
    ensures Filter(SortCards(cards, order, table, locale), RankIs(table, k)) == Filter(cards, RankIs(table, k))
  {
    SortStable(cards, Comparator(order, table, locale), RankIs(table, k));
  }

  /**
    Under `asc` the names come out ordered by the name comparator, under
    `desc` by its reverse, provided `localeCompare` is a total preorder.
  */
  lemma SortByName(cards: seq<Card>, order: string, table: map<string, nat>, locale: (string, string) -> int)
    requires order == "asc" || order == "desc"
    requires Consistent(locale)
    ensures var r := SortCards(cards, order, table, locale);
      forall i, j :: 0 <= i < j < |r| ==>
        if order == "asc" then locale(NameOf(r[i].name), NameOf(r[j].name)) <= 0
        else locale(NameOf(r[j].name), NameOf(r[i].name)) <= 0
  {
    SortSorted(cards, Comparator(order, table, locale));
  }

  /** Any other sort key makes every comparison 0, so the filtered order is kept. */
  lemma SortUnknownKeeps(cards: seq<Card>, order: string, table: map<string, nat>, locale: (string, string) -> int)
    requires order !in {"asc", "desc", "rarityAsc", "rarityDesc"}
    ensures SortCards(cards, order, table, locale) == cards
  {
    SortOfSorted(cards, Comparator(order, table, locale));
  }

  /** `item.rarity || ""`. */
  function RarityOf(c: Card): string {
    c.rarity.GetOr("")
  }

  /**
    `[...new Set(cards.map(c => c.rarity || ""))].sort()`: each rarity
    once, "" standing for a missing one, in increasing order.
  */
  function UniqueRarities(cards: seq<Card>): (r: seq<string>)
    ensures forall x :: x in r <==> exists c :: c in cards && RarityOf(c) == x
    ensures SortedStrictly(r)
    ensures forall c :: c in cards && c.rarity.None? ==> "" in r
  {
    var rarities := seq(|cards|, i requires 0 <= i < |cards| => RarityOf(cards[i]));
    assert forall x :: x in rarities <==> exists c :: c in cards && RarityOf(c) == x by {
      forall x ensures x in rarities <==> exists c :: c in cards && RarityOf(c) == x {
        if exists c :: c in cards && RarityOf(c) == x {
          var c :| c in cards && RarityOf(c) == x;
          var i :| 0 <= i < |cards| && cards[i] == c;
          assert rarities[i] == x;
        }
      }
    }
    SortedUnique(rarities)
  }
}
