/**
  The option lists the build page derives from the game data
  (`useDataLists` in Builds.jsx): each champion with its image and the
  display string of its regions, each relic, item and power with its image
  and description.
*/
module DataLists {
  import opened Wrappers
  import opened GameData
  import Text

  /** A champion as the build page lists it. */
  datatype ChampionChoice = ChampionChoice(name: Option<string>, image: string, region: string)

  /** A relic, item or power as the build page lists it. */
  datatype CardChoice = CardChoice(name: Option<string>, image: string, description: string)

  const RegionSeparator: string := ", "
  const UnknownRegion: string := "Không xác định"
  const NoDescription: string := "Không có mô tả"

  /** `champ.regionRefs?.join(", ") || "Không xác định"`. */
  function RegionText(refs: Option<seq<string>>): (r: string)
    ensures r != ""
    ensures refs.None? ==> r == UnknownRegion
    ensures refs.Some? && Text.Join(refs.value, RegionSeparator) != "" ==> r == Text.Join(refs.value, RegionSeparator)
  {
    if refs.Some? && Text.Join(refs.value, RegionSeparator) != "" then Text.Join(refs.value, RegionSeparator) else UnknownRegion
  }

  /**
    The build filter splits the region text on ", " again: for region
    references that are not empty and do not contain the separator, the
    split gives back exactly the references.
  */
  lemma RegionTextSplit(refs: seq<string>)
    requires refs != [] && refs != [""]
    requires forall k :: 0 <= k < |refs| ==> !Text.Includes(refs[k], RegionSeparator)
    ensures Text.Split(RegionText(Some(refs)), RegionSeparator) == refs
  {
    Text.SplitJoin(refs, RegionSeparator);
  }

  function ChampionChoiceOf(c: Champion): (r: ChampionChoice)
    ensures r.name == c.name
    ensures r.image == OrElse(c.image, Placeholder) && r.image != ""
    ensures r.region == RegionText(c.regionRefs)
  {
    ChampionChoice(c.name, OrElse(c.image, Placeholder), RegionText(c.regionRefs))
  }

  /** `championsList`: one entry per champion, in data order. */
  function ChampionChoices(champs: seq<Champion>): (r: seq<ChampionChoice>)
    ensures |r| == |champs| && forall i :: 0 <= i < |r| ==> r[i] == ChampionChoiceOf(champs[i])
  {
    seq(|champs|, i requires 0 <= i < |champs| => ChampionChoiceOf(champs[i]))
  }

  function CardChoiceOf(c: Card): (r: CardChoice)
    ensures r.name == c.name
    ensures r.image == OrElse(c.image, Placeholder) && r.image != ""
    ensures r.description == OrElse(c.description, NoDescription) && r.description != ""
  {
    CardChoice(c.name, OrElse(c.image, Placeholder), OrElse(c.description, NoDescription))
  }

  /** `relicsList`, `itemsList` and `powersList`: one entry per record, in data order. */
  function CardChoices(cards: seq<Card>): (r: seq<CardChoice>)
    ensures |r| == |cards| && forall i :: 0 <= i < |r| ==> r[i] == CardChoiceOf(cards[i])
  {
    seq(|cards|, i requires 0 <= i < |cards| => CardChoiceOf(cards[i]))
  }
}
