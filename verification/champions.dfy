/**
  The champion catalog page (Champions.jsx): name search, region filter,
  name sort, and the regions offered in the filter.
*/
module Champions {
  import opened Wrappers
  import opened Seqs
  import opened Sorting
  import opened GameData
  import Text

  /** `champ.regions && champ.regions.includes(region)`. */
  predicate InRegion(c: Champion, region: string) {
    c.regions.Some? && region in c.regions.value
  }

  predicate Matches(c: Champion, search: string, region: string, lower: string -> string) {
    && Text.Includes(lower(NameOf(c.name)), lower(search))
    && (region == "" || InRegion(c, region))
  }

  /**
    `filteredChampions`: the champions whose folded name contains the
    folded search term and, when a region is selected, whose `regions`
    list it; a champion without `regions` is then left out.
  */
  function FilterChampions(champs: seq<Champion>, search: string, region: string, lower: string -> string): (r: seq<Champion>)
    ensures forall c :: c in r <==>
      && c in champs
      && Text.Includes(lower(NameOf(c.name)), lower(search))
      && (region == "" || (c.regions.Some? && region in c.regions.value))
    ensures region != "" ==> forall c :: c in r ==> c.regions.Some?
  {
    Filter(champs, (c: Champion) => Matches(c, search, region, lower))
  }

  /** The filter keeps the data order. */
  lemma FilterChampionsOrder(champs: seq<Champion>, search: string, region: string, lower: string -> string)
    ensures IsSubsequence(FilterChampions(champs, search, region, lower), champs)
  {
    FilterIsSubsequence(champs, (c: Champion) => Matches(c, search, region, lower));
  }

  /** An empty search and no selected region give every champion, in order. */
  lemma EmptyFiltersKeepAll(champs: seq<Champion>, lower: string -> string)
    requires lower("") == ""
    ensures FilterChampions(champs, "", "", lower) == champs
  {
    forall c | c in champs ensures Matches(c, "", "", lower) {
      Text.IncludesEmpty(lower(NameOf(c.name)));
    }
    FilterAll(champs, (c: Champion) => Matches(c, "", "", lower));
  }

  /** `"asc"` compares names, any other key compares them the other way round. */
  function CompareChampions(order: string, locale: (string, string) -> int, a: Champion, b: Champion): (r: int)
    ensures order == "asc" ==> r == locale(NameOf(a.name), NameOf(b.name))
    ensures order != "asc" ==> r == locale(NameOf(b.name), NameOf(a.name))
  {
    if order == "asc" then locale(NameOf(a.name), NameOf(b.name)) else locale(NameOf(b.name), NameOf(a.name))
  }

  function Comparator(order: string, locale: (string, string) -> int): (Champion, Champion) -> int {
    (a: Champion, b: Champion) => CompareChampions(order, locale, a, b)
  }

  /** `sortedChampions`: the filtered champions, sorted on a copy. */
  function SortChampions(champs: seq<Champion>, order: string, locale: (string, string) -> int): (r: seq<Champion>)
    ensures |r| == |champs| && multiset(r) == multiset(champs)
  {
    StableSort(champs, Comparator(order, locale))
  }

  /** With a total-preorder `localeCompare`, `"asc"` orders names ascending and every other key descending. */
  lemma SortByName(champs: seq<Champion>, order: string, locale: (string, string) -> int)
    requires Consistent(locale)
    ensures var r := SortChampions(champs, order, locale);
      forall i, j :: 0 <= i < j < |r| ==>
        if order == "asc" then locale(NameOf(r[i].name), NameOf(r[j].name)) <= 0
        else locale(NameOf(r[j].name), NameOf(r[i].name)) <= 0
  {
    SortSorted(champs, Comparator(order, locale));
  }

  /** `champ.regions || []`. */
  function RegionsOf(c: Champion): seq<string> {
    c.regions.GetOr([])
  }

  /** `[...new Set(chamPOC.flatMap(c => c.regions || []))].sort()`: each listed region once, in increasing order. */
  function UniqueRegions(champs: seq<Champion>): (r: seq<string>)
    ensures forall x :: x in r <==> exists c :: c in champs && c.regions.Some? && x in c.regions.value
    ensures SortedStrictly(r)
  {
    SortedUnique(FlatMap(champs, RegionsOf))
  }
}
