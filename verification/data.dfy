/**
  The static game data the client pages read: champions (chamPOC.json) and
  the item, power and relic catalogs. Only the fields the modelled code
  reads are kept; a field the JSON may lack is an `Option`.
*/
module GameData {
  import opened Wrappers

  /** A champion record: `name`, `regions` (read by the catalog and draw pages), `regionRefs` and the first asset's image path (read by the build page). */
  datatype Champion = Champion(
    name: Option<string>,
    regions: Option<seq<string>>,
    regionRefs: Option<seq<string>>,
    image: Option<string>)

  /** An item, power or relic record: `name`, `rarity`, `assetAbsolutePath` and `descriptionRaw`. */
  datatype Card = Card(name: Option<string>, rarity: Option<string>, image: Option<string>, description: Option<string>)

  /** `x.name || ""`. */
  function NameOf(name: Option<string>): (r: string)
    ensures name.Some? ==> r == name.value
    ensures name.None? ==> r == ""
  {
    name.GetOr("")
  }

  /** `x || fallback` on an optional string. */
  function OrElse(x: Option<string>, fallback: string): (r: string)
    ensures x.Some? && x.value != "" ==> r == x.value
    ensures !(x.Some? && x.value != "") ==> r == fallback
  {
    if x.Some? && x.value != "" then x.value else fallback
  }

  const Placeholder: string := "/images/placeholder.png"
}
