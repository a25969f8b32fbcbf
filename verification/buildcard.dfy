/**
  How a build card resolves what it shows (BuildCard.jsx): the champion's
  image, one image per slot, whether the item and power sections appear,
  and the texts shown for an empty description or creator.
*/
module BuildCard {
  import opened Wrappers
  import opened Seqs
  import opened GameData
  import opened DataLists
  import opened BuildForm

  /**
    `list.find(x => x.name === name)?.image || "/images/placeholder.png"`:
    the image of the first entry with that name, the placeholder when
    there is none or its image is empty.
  */
  function FirstImage<T(!new)>(list: seq<T>, nameOf: T -> Option<string>, imageOf: T -> string, name: string): (r: string)
    ensures r != ""
    ensures (forall x :: x in list ==> nameOf(x) != Some(name)) ==> r == Placeholder
    ensures forall i :: 0 <= i < |list| && nameOf(list[i]) == Some(name) && (forall j :: 0 <= j < i ==> nameOf(list[j]) != Some(name)) ==>
      r == OrElse(Some(imageOf(list[i])), Placeholder)
  {
    var found := Find(list, (x: T) => nameOf(x) == Some(name));
    if found.Some? then OrElse(Some(imageOf(found.value)), Placeholder)
    else
      assert forall i :: 0 <= i < |list| ==> list[i] in list;
      Placeholder
  }

  function ChampionName(c: ChampionChoice): Option<string> { c.name }
  function ChampionImageOf(c: ChampionChoice): string { c.image }
  function CardName(c: CardChoice): Option<string> { c.name }
  function CardImageOf(c: CardChoice): string { c.image }

  /** `championImage`: the image of the first champion with the build's champion name, else the placeholder. */
  function ChampionImage(champions: seq<ChampionChoice>, build: Entry): (r: string)
    ensures r != ""
    ensures (forall c :: c in champions ==> c.name != Some(build.form.championName)) ==> r == Placeholder
  {
    FirstImage(champions, ChampionName, ChampionImageOf, build.form.championName)
  }

  /**
    `artifactImages`, `itemImages`, `powerImages`: one entry per slot; an
    empty slot gives null, any other the image of the first catalog entry
    with that name, or the placeholder.
  */
  function SlotImages(list: seq<CardChoice>, slots: seq<string>): (r: seq<Option<string>>)
    ensures |r| == |slots|
    ensures forall i :: 0 <= i < |slots| ==> (r[i].None? <==> slots[i] == "")
    ensures forall i :: 0 <= i < |slots| && slots[i] != "" ==> r[i] == Some(FirstImage(list, CardName, CardImageOf, slots[i]))
    ensures forall i :: 0 <= i < |slots| && slots[i] != "" && (forall c :: c in list ==> c.name != Some(slots[i])) ==> r[i] == Some(Placeholder)
  {
    seq(|slots|, i requires 0 <= i < |slots| => if slots[i] == "" then None else Some(FirstImage(list, CardName, CardImageOf, slots[i])))
  }

  /** `build.items.some(item => item)`: the items (or powers) section appears. */
  predicate ShowSection(slots: seq<string>) {
    AnyFilled(slots)
  }

  /** A section appears exactly when it has an image to show. */
  lemma SectionShowsImages(list: seq<CardChoice>, slots: seq<string>)
    ensures ShowSection(slots) <==> exists i :: 0 <= i < |slots| && SlotImages(list, slots)[i].Some?
  {
    var images := SlotImages(list, slots);
    if ShowSection(slots) {
      var j :| 0 <= j < |slots| && slots[j] != "";
      assert images[j].Some?;
    }
  }

  /** `build.description || "Không có mô tả"`. */
  function DescriptionText(build: Entry): (r: string)
    ensures r != ""
    ensures build.form.description != "" ==> r == build.form.description
    ensures build.form.description == "" ==> r == NoDescription
  {
    if build.form.description != "" then build.form.description else NoDescription
  }

  const Anonymous: string := "Ẩn danh"

  /** `build.creator || "Ẩn danh"`. */
  function CreatorText(build: Entry): (r: string)
    ensures r != ""
    ensures build.form.creator != "" ==> r == build.form.creator
    ensures build.form.creator == "" ==> r == Anonymous
  {
    if build.form.creator != "" then build.form.creator else Anonymous
  }
}
