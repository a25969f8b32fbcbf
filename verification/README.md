# Path of Champions builds: a Dafny model

Path of Champions Web is a fan site for the Legends of Runeterra
"Path of Champions" mode. It has two parts:

- An Express server (`server.js`). It keeps player-written champion
  builds in a DynamoDB table called `Builds`.
- A React client. It lists, filters and edits those builds
  (`Builds.jsx` and its components). It also shows catalog pages for
  champions, items, powers and relics, and has a random draw page.

This project models the logic of both parts and proves what that logic
promises.

**Server**
- `BuildRecord`: the normaliser `standardizeBuildData` and the request
  check shared by add, update and save-builds.
- `Codec`: the two converters to and from DynamoDB's tagged attribute
  values.
- `Server`:
  - The update-expression loop and the save-builds loop.
  - The table as a map from id to item. `PutItem` overwrites.
    `UpdateItem` writes only when `attribute_exists(id)` holds.
    `DeleteItem` is unconditional.
  - Every handler as a method of `Server.Table` that returns the reply.
    The handlers use the corrected catch block and element decoding of
    the Findings; the code as written is modelled beside them.

**Client**
- `BuildsPage.Page` holds the state of the builds page. Its handlers
  are methods:
  - Add, edit and delete are optimistic: the list changes first, then
    the whole list is posted to save-builds. Nothing is rolled back on
    failure.
  - `posted` records each list sent.
- `ClientServer` connects the two sides:
  - What the client posts is exactly what the server stores.
  - The server accepts exactly the forms the client accepts.
  - A client-side delete never removes a row from the table.
- The catalog pages (`Catalog`, `Items`, `Powers`, `Relics`,
  `Champions`) share one filter and one comparator, with a rank table
  per page.
- The random draw page (`RandomDraw.Page`) is a class. Its interval and
  timeout pairs are explicit steps.
- The form components: `SelectionGroup`, `AddBuildModal`,
  `CustomDropdown` and `BuildCard`.

**Shared**
- Sequences are `seq`, and JavaScript values are `JsValue.Value`.
- `Array.prototype.sort` is the stable insertion sort in `Sorting`.
  ECMA-262 has required a stable sort since its 2019 edition.
- `Array.prototype.filter` is `Seqs.Filter`.
- `[...new Set(xs)]` is `Seqs.Dedup`, which keeps first-seen order.

Where the code and the project's written description disagree, the
model follows the code:

- Add is an upsert: `PutItem` has no condition, so adding a build whose
  id exists replaces it.
- save-builds only writes. It puts each valid build and never deletes a
  row that the posted list lacks (`Server.SaveAllUntouched`).
- A new draw does not cancel the timers of an earlier draw that is
  still running. Nothing in the code clears them.

## Model

| member | source | states |
|---|---|---|
| BuildRecord.Standardize | server.js:40-56 | the result always has the canonical shape: 3 artifact slots, 6 item slots, 6 power slots, and scalars that are truthy or "" |
| BuildRecord.Slots | server.js:44-52 | exactly n slots; slot i is the array's i-th element when it exists and "" otherwise; a non-array gives n blanks |
| BuildRecord.OrEmpty | server.js:42-43 | `x \|\| ""` keeps a truthy value and turns every falsy value into "" |
| BuildRecord.StandardizeFields | server.js:40-56 | a truthy id, champion name, description or creator is kept and a falsy one becomes ""; slot arrays have lengths 3/6/6 |
| BuildRecord.StandardizeCanonical | server.js:40-56 | a canonical build is a fixed point of the normaliser |
| BuildRecord.StandardizeIdempotent | server.js:40-56 | normalising twice is normalising once |
| BuildRecord.Acceptable | server.js:130-136 | an accepted build has a non-empty string id, a truthy champion name and at least one truthy artifact |
| BuildRecord.AcceptableBody | server.js:129-142 | the request check passes iff the body has a non-empty string id, a truthy championName, and an artifacts array with a truthy value among its first three elements |
| Codec.EncodeAttr | server.js:62-68 | arrays become `{L: [{S: String(x)}…]}`, strings become `{S: s}`, and every other value passes through |
| Codec.Encode | server.js:59-71 | the encoded item has the same keys in the same order, and each value is that attribute encoded |
| Codec.ConvertToDynamoDB | server.js:59-71 | the loop builds an item with the same keys, in the same order, each value encoded |
| Codec.DecodeAttr | server.js:77-83 | `"S" in v` on a primitive throws TypeError; an `S` attribute decodes to its string; an array passes through |
| Codec.DecodeFields | server.js:76-84 | on success the keys are kept and each value is its attribute decoded; it fails iff some attribute throws |
| Codec.DecodeFieldsFailExtends | server.js:76-84 | once a prefix throws, the whole item throws the same fault |
| Codec.ConvertFromDynamoDB | server.js:74-86 | the loop computes `Decode` for the element decoding it is given: the code as written with `ElementAsWritten`, the intended one with `Element`; the result is canonical on success |
| Codec.Decode | server.js:74-86 | a decoded item is normalised, so it is canonical |
| Codec.DecodeList | server.js:80 | `L.map(elem)` fails iff some element fails; otherwise element i decodes to result i |
| Codec.ElementAsWritten | server.js:80 | `v.S ? v.S : v`: a truthy S gives that string; an empty S gives the wrapper object itself |
| Codec.Element | server.js:80 | the intended element decoding: `{S: s}` gives s for every s, including "" |
| Codec.FieldsRoundTrip | server.js:59-86 | decoding an encoded item gives, attribute by attribute, what the element decoding gives |
| Codec.BuildRoundTrip | server.js:59-86 | decoding the encoding of a string-only build gives back its scalars, and its slots as the element decoding maps them |
| Codec.SlotsDecode | server.js:63-80 | an encoded list of strings decodes to each string's element decoding |
| Codec.RoundTrip | server.js:59-86 | with the intended decoding, every string-only canonical build survives the store unchanged |
| Codec.AsWrittenSlots | server.js:80 | with the decoding as written, the slots come back unchanged iff none of them is "" |
| Codec.AsWrittenRoundTrip | server.js:80 | as written, a string-only build survives the store iff it has no empty slot |
| Codec.AsWrittenEmptySlotExample | server.js:80 | a concrete build with one artifact comes back with its two empty artifact slots as `{S: ""}` objects |
| Server.CatchAsWritten | server.js:156-160 | as written, only load-builds' catch replies; the other catch blocks read a block-scoped const and throw ReferenceError |
| Server.Catch | server.js:115-119 | the intended catch replies 500 with the fault's message |
| Server.Settle | server.js:319-323 | a reply is sent as it is; an escaped fault gets the error middleware's 500 with its message under Express 5, and no reply under Express 4 |
| Server.SettledCatchFinding | server.js:156-160 | through the middleware, the four as-written catch blocks report a ReferenceError (Express 5) or nothing (Express 4), never the fault that occurred; load's catch is the intended one |
| Server.CatchFinding | server.js:158 | for add, update, delete and save-builds, the as-written catch escapes with ReferenceError, which differs from the intended reply |
| Server.TaggedRowDecodes | server.js:74-86 | every row of tagged attributes decodes without throwing |
| Server.EncodedRow | server.js:145 | an accepted build encodes to an item with the canonical keys whose first entry is `{S: id}`, so the update has the item's own key |
| Server.Assignments | server.js:193-199 | the SET list holds exactly the item's entries whose key is not "id" |
| Server.AssignmentsSnoc | server.js:193-199 | each loop step appends its entry iff its key is not "id" |
| Server.UpdateExpression | server.js:189-199 | the loop produces one `#k = :k` clause, one name entry and one value entry per non-id attribute, in order |
| Server.CanonicalAssignments | server.js:193-205 | a normalised item always yields six assignments, so the "nothing to update" branch never runs |
| Server.TaggedAssignments | server.js:193-199 | with a tagged id, the assigned values are tagged iff the whole item is |
| Server.UpdateWrites | server.js:211-221 | an update of a stored row writes exactly the new item |
| Server.SetAttrAt | server.js:213 | SET on an existing attribute replaces that one entry |
| Server.ApplySuffix | server.js:213 | once a row's first k entries match the item's, assigning the rest makes the row the item |
| Server.UpdateOverwrites | server.js:211-221 | applying the SET list to a stored row gives the new item |
| Server.Prepare | server.js:282-299 | a build that passes the check becomes a row in the stored shape under its own id |
| Server.PrepareCases | server.js:282-304 | a nullish element throws TypeError; a build failing the check is skipped; otherwise it is stored, or refused when untagged |
| Server.PrepareAll | server.js:282-299 | one step per posted element; each ready step carries a stored-shape row |
| Server.SaveAll | server.js:282-308 | the save loop completes iff no posted element throws; a fault it ends with is the fault of one of the elements |
| Server.SaveAllKeepsRows | server.js:282-307 | saving never removes a row |
| Server.SaveAllSkipsInvalid | server.js:284-297 | skipped builds change nothing: saving equals saving only the builds that pass the check |
| Server.SaveAllInOrder | server.js:282-307 | saving a + c is saving a, then c on the result, unless a throws |
| Server.SaveAllUntouched | server.js:282-307 | a row whose key no posted build carries is left exactly as it was |
| Server.SaveAllStores | server.js:299-305 | a save that completes stores every build that passed the check under its id; when no later build has that id, the row is exactly that build's item |
| Server.SaveAllKeepsShape | server.js:299-305 | every row stays a correctly shaped encoding under its own key |
| Server.DecodeAll | server.js:110-112 | on success, one build per scanned row |
| Server.DecodeAllAt | server.js:110-112 | build i is the decoding of row i |
| Server.TaggedRowsDecode | server.js:110-112 | a table of stored rows always decodes |
| Server.DecodeAllFailExtends | server.js:110-112 | once a prefix of the scan fails to decode, the whole scan fails with the same fault |
| Server.ScanOf | server.js:108-109 | a scan in a given key order: the row under each key, in that order |
| Server.StoredScanDecodes | server.js:107-113 | a scan that returns every stored row once, as stored, decodes without fault to one build per row, build i being row i decoded |
| Server.Table.Put | server.js:148-153 | PutItem stores the item under its id and replaces any row there; an untagged item is refused and nothing changes |
| Server.Table.SetIfExists | server.js:211-222 | UpdateItem with `attribute_exists(id)`: a missing key fails ConditionFailed and nothing changes; otherwise the SET list is applied |
| Server.Table.Load | server.js:104-120 | 200 with the scanned items decoded and normalised, in scan order, or [] when the reply has no items; an item that fails to decode gives the catch block's 500 with its message, which is what the load catch does as written |
| Server.Table.Add | server.js:123-161 | with the corrected catch: a nullish body gives 500 TypeError; a failed check gives 400 with nothing written; otherwise the put stores the row under its id, overwriting any row there, and gives 201; an item the store refuses gives 500 with nothing written |
| Server.Table.Update | server.js:164-235 | with the corrected catch: the same check gives 400; otherwise a conditional update replaces an existing row, or gives 500 ConditionFailed for a missing one |
| Server.Table.UpdateItem | server.js:186-223 | with the corrected catch, the update loop and command: 200 with the row replaced, or 500 with the table unchanged |
| Server.Table.Delete | server.js:238-265 | with the corrected catch: 400 unless the id is a non-empty string; otherwise the key is removed, even when it is absent, with 200 |
| Server.Table.SaveBuilds | server.js:268-316 | with the corrected catch: 400 for a non-array body; otherwise the table is SaveAll of the old table, with 201 on success or 500 and the partial writes kept |
| Sorting.StableSort | src/Pages/Items.jsx:79 | the sort is a permutation of its input |
| Sorting.SortSorted | src/Pages/Items.jsx:79 | with a consistent comparator, the result is ordered |
| Sorting.SortStable | src/Pages/Items.jsx:79 | elements tied under the comparator keep their original relative order |
| Sorting.SortOfSorted | src/Pages/Items.jsx:91 | an ordered input, for example under a comparator that always returns 0, is left unchanged |
| Sorting.SortNoDup | src/Pages/Items.jsx:52 | sorting a list with no repeats gives a list with no repeats |
| Sorting.SortedUnique | src/Pages/Items.jsx:52 | `[...new Set(xs)].sort()` holds exactly the values of xs, in strictly increasing order |
| Seqs.Filter | src/Pages/Items.jsx:57-64 | filter keeps exactly the elements that satisfy the predicate |
| Seqs.FilterIsSubsequence | src/Pages/Items.jsx:57-64 | filter keeps the order of what it keeps |
| Seqs.FilterAppend | src/Pages/Builds.jsx:252 | filter distributes over concatenation |
| Seqs.Find | src/Pages/Builds.jsx:269-271 | find returns the first element that satisfies the predicate, or nothing when none does |
| Seqs.Dedup | src/Pages/Random.jsx:37 | a Set spread keeps each value once |
| Seqs.DedupFirstSeen | src/Pages/Random.jsx:37 | a Set spread keeps values in the order of their first occurrence |
| Text.IndexOf | src/Pages/Builds.jsx:278 | the first occurrence of a separator, or -1 when there is none |
| Text.SplitJoin | src/Pages/Builds.jsx:276-278 | splitting on ", " undoes joining on ", " when no piece contains the separator |
| Text.CompareFlip | src/Pages/Items.jsx:52 | the default string order is antisymmetric |
| Text.CompareZero | src/Pages/Items.jsx:52 | two strings compare equal iff they are the same string |
| Text.CompareTrans | src/Pages/Items.jsx:52 | the default string order is transitive |
| GameData.NameOf | src/Pages/Items.jsx:58 | `name \|\| ""` |
| GameData.OrElse | src/Pages/Builds.jsx:32 | a non-empty value is kept; a missing or empty one gives the fallback |
| Catalog.FilterCards | src/Pages/Items.jsx:56-65 | a card is shown iff its lower-cased name contains the lower-cased search and no rarity is selected or its rarity is the selected one |
| Catalog.FilterCardsOrder | src/Pages/Items.jsx:56-65 | the shown cards keep catalog order |
| Catalog.EmptyFiltersKeepAll | src/Pages/Items.jsx:56-65 | with no search and no rarity, every card is shown |
| Catalog.Rank | src/Pages/Items.jsx:80-81 | `rarityOrder[r] \|\| 0`: the table's rank, or 0 for an unlisted or missing rarity |
| Catalog.CompareCards | src/Pages/Items.jsx:79-92 | asc and desc compare names with localeCompare, each the other's operands swapped; rarityAsc and rarityDesc put the lower (resp. higher) rank first and tie exactly on equal ranks; any other key ties every pair |
| Catalog.SortCards | src/Pages/Items.jsx:78-93 | the sorted list is a permutation of the filtered list |
| Catalog.SortByRank | src/Pages/Items.jsx:86-89 | rarityAsc orders by non-decreasing rank; rarityDesc by non-increasing rank |
| Catalog.SortByRankStable | src/Pages/Items.jsx:86-89 | cards of equal rank keep their relative order |
| Catalog.SortByName | src/Pages/Items.jsx:82-85 | asc orders names by localeCompare; desc orders them in reverse |
| Catalog.SortUnknownKeeps | src/Pages/Items.jsx:91 | any other sort order leaves the filtered list as it is |
| Catalog.UniqueRarities | src/Pages/Items.jsx:51-53 | every rarity occurring in the catalog once, sorted; a card without rarity contributes "" |
| Items.SortedItems | src/Pages/Items.jsx:78-93 | the shown items are a permutation of the filtered items |
| Powers.RankTable | src/Pages/Powers.jsx:67-76 | THƯỜNG 0, HIẾM 1, SỬ THI 2, HUYỀN THOẠI 3; everything else ranks 0 |
| Powers.SortedPowers | src/Pages/Powers.jsx:78-93 | the shown powers are a permutation of the filtered powers |
| Relics.RankTable | src/Pages/Relics.jsx:47-55 | THƯỜNG 0, HIẾM 1, SỬ THI 2; unlisted or missing rarities tie with THƯỜNG |
| Relics.SortedRelics | src/Pages/Relics.jsx:57-72 | the shown relics are a permutation of the filtered relics |
| Items.RankTable | src/Pages/Items.jsx:67-76 | ĐẶC BIỆT 0, THƯỜNG 1, HIẾM 2, SỬ THI 3; everything else ranks 0 |
| Champions.FilterChampions | src/Pages/Champions.jsx:58-69 | a champion is shown iff its name matches the search and no region is selected or its regions include the selected one |
| Champions.FilterChampionsOrder | src/Pages/Champions.jsx:58-69 | the shown champions keep catalog order |
| Champions.EmptyFiltersKeepAll | src/Pages/Champions.jsx:58-69 | with no search and no region, every champion is shown |
| Champions.CompareChampions | src/Pages/Champions.jsx:72-78 | "asc" compares the names with localeCompare; every other key compares them with the operands swapped |
| Champions.SortChampions | src/Pages/Champions.jsx:71-79 | the sorted list is a permutation of the filtered list |
| Champions.SortByName | src/Pages/Champions.jsx:71-79 | "asc" orders names by localeCompare; any other order reverses it |
| Champions.UniqueRegions | src/Pages/Champions.jsx:53-55 | every region of any champion once, strictly sorted |
| RandomDraw.Regions | src/Pages/Random.jsx:34-39 | "Tất cả" first, then every champion region exactly once |
| RandomDraw.RegionsFirstSeen | src/Pages/Random.jsx:34-39 | the regions after "Tất cả" appear in the order they are first met |
| RandomDraw.ChampionCandidates | src/Pages/Random.jsx:64-67 | "Tất cả" draws from every champion; otherwise exactly from the champions of that region |
| RandomDraw.RelicCandidates | src/Pages/Random.jsx:91-94 | "Tất cả" draws from every relic; otherwise exactly from the relics of that rarity |
| RandomDraw.Page.constructor | src/Pages/Random.jsx:17-26 | nothing displayed, nothing spinning, no timers |
| RandomDraw.Page.RandomChampion | src/Pages/Random.jsx:62-86 | no candidates: display cleared and spinning stopped; otherwise spinning with one more timer over the candidates |
| RandomDraw.Page.RandomRelic | src/Pages/Random.jsx:89-113 | the same for relics |
| RandomDraw.Page.TickChampion | src/Pages/Random.jsx:75-78 | an interval tick displays one of that draw's candidates and changes nothing else |
| RandomDraw.Page.SettleChampion | src/Pages/Random.jsx:80-85 | the timeout displays one of that draw's candidates, stops spinning and retires only that draw's timer |
| RandomDraw.Page.TickRelic | src/Pages/Random.jsx:102-105 | the same as TickChampion, for relics |
| RandomDraw.Page.SettleRelic | src/Pages/Random.jsx:107-112 | the same as SettleChampion, for relics |
| RandomDraw.Page.Disabled | src/Pages/Random.jsx:146 | both draw buttons are disabled exactly while a champion draw or a relic draw spins |
| RandomDraw.Page.ClickChampion | src/Pages/Random.jsx:143-146 | a disabled button, when either draw is spinning, changes nothing; otherwise the click is exactly a champion draw: no candidates clears the display with no timer, candidates start the spin with one more timer over them, the relic side is untouched, and the buttons end disabled iff a spin started |
| RandomDraw.Page.ClickRelic | src/Pages/Random.jsx:188-191 | the same for the relic button and a relic draw |
| RandomDraw.Page.Effect | src/Pages/Random.jsx:116-119 | both draws start, and earlier timers are kept; a side with no candidates clears its display and stops, the other side keeps its display and spins |
| RandomDraw.Page.SelectRegion | src/Pages/Random.jsx:43-50 | the region changes and the effect runs both draws again, with the timers, spinning flags and displays of Effect |
| RandomDraw.Page.SelectRarity | src/Pages/Random.jsx:52-59 | the rarity changes and the effect runs both draws again, with the timers, spinning flags and displays of Effect |
| SelectionGroup.Write | src/Pages/BuildComponents/SelectionGroup.jsx:25-28 | `{...formData, [name]: v}` sets that field and keeps the others |
| SelectionGroup.InputChange | src/Pages/BuildComponents/SelectionGroup.jsx:17-31 | a slot field changes only slot `index`; a scalar field is replaced; every other field is kept |
| SelectionGroup.Toggle | src/Pages/BuildComponents/SelectionGroup.jsx:33-35 | the open dropdown becomes id, unless id was already open, in which case none is |
| SelectionGroup.ToggleTwice | src/Pages/BuildComponents/SelectionGroup.jsx:33-35 | toggling the same dropdown twice closes it; toggling to null closes any open one |
| AddBuildModal.HasData | src/Pages/BuildComponents/AddBuildModal.jsx:21-31 | false iff every field and every slot is "" |
| AddBuildModal.HasDataBounds | src/Pages/BuildComponents/AddBuildModal.jsx:21-31 | the empty form has no data; a form with a champion has data |
| AddBuildModal.Modal.HandleClose | src/Pages/BuildComponents/AddBuildModal.jsx:34-42 | with data, ask for confirmation and stay open; without data, close |
| AddBuildModal.Modal.HandleCancel | src/Pages/BuildComponents/AddBuildModal.jsx:56-59 | only the confirmation closes |
| AddBuildModal.Modal.HandleConfirm | src/Pages/BuildComponents/AddBuildModal.jsx:62-66 | both the confirmation and the dialog close |
| CustomDropdown.FilterOptions | src/Pages/BuildComponents/CustomDropdown.jsx:18-22 | a TypeError iff some option has no name; otherwise an option is listed iff its lower-cased name contains the lower-cased search |
| CustomDropdown.FilterOptionsOrder | src/Pages/BuildComponents/CustomDropdown.jsx:18-22 | the options keep their order |
| CustomDropdown.EmptySearchShowsAll | src/Pages/BuildComponents/CustomDropdown.jsx:18-22 | when every option has a name, an empty search lists every option |
| CustomDropdown.Dropdown.HandleSelect | src/Pages/BuildComponents/CustomDropdown.jsx:24-31 | reports (name, value, index), then closes the dropdown, and clears the search |
| CustomDropdown.Dropdown.SelectPlaceholder | src/Pages/BuildComponents/CustomDropdown.jsx:77 | the placeholder entry selects "" |
| CustomDropdown.Dropdown.HandleToggle | src/Pages/BuildComponents/CustomDropdown.jsx:33-35 | asks the parent to toggle this dropdown and keeps the search |
| BuildCard.FirstImage | src/Pages/BuildComponents/BuildCard.jsx:13-18 | the image of the first entry with that name, or the placeholder when there is none or its image is empty; never "" |
| BuildCard.ChampionImage | src/Pages/BuildComponents/BuildCard.jsx:13-18 | the build's champion image, with the placeholder for an unknown champion |
| BuildCard.SlotImages | src/Pages/BuildComponents/BuildCard.jsx:21-46 | one image per slot: null iff the slot is empty; otherwise the first match's image, or the placeholder |
| BuildCard.SectionShowsImages | src/Pages/BuildComponents/BuildCard.jsx:85-108 | the items and powers sections are shown iff some slot has an image |
| BuildCard.DescriptionText | src/Pages/BuildComponents/BuildCard.jsx:132 | the description, or "Không có mô tả" when it is empty |
| BuildCard.CreatorText | src/Pages/BuildComponents/BuildCard.jsx:135 | the creator, or "Ẩn danh" when it is empty |
| DataLists.RegionText | src/Pages/Builds.jsx:33 | the region refs joined by ", ", or "Không xác định" when they are missing or join to "" |
| DataLists.RegionTextSplit | src/Pages/Builds.jsx:276-278 | splitting the joined text on ", " gives back the refs |
| DataLists.ChampionChoiceOf | src/Pages/Builds.jsx:29-34 | name kept; image with placeholder fallback, never ""; region text |
| DataLists.ChampionChoices | src/Pages/Builds.jsx:27-36 | one choice per champion, in order |
| DataLists.CardChoiceOf | src/Pages/Builds.jsx:39-43 | name kept; image and description with their fallbacks, never "" |
| DataLists.CardChoices | src/Pages/Builds.jsx:37-62 | one choice per card, in order |
| BuildForm.EmptyShape | src/Pages/Builds.jsx:98-105 | the empty form has 3/6/6 blank slots |
| BuildForm.Ids | src/Pages/Builds.jsx:233 | the ids of the builds, in order |
| BuildsPage.SuccessMessage | src/Pages/Builds.jsx:162-175 | the success message for add, edit, delete and the default action |
| BuildsPage.SaveStatus | src/Pages/Builds.jsx:146-182 | success iff the response is ok; otherwise the server's error, "Lỗi khi lưu builds", or the thrown message, with "Không thể lưu builds." for an empty one |
| BuildsPage.ReplaceById | src/Pages/Builds.jsx:233-235 | the builds with the current id get the form's fields; all others are kept |
| BuildsPage.ReplaceKeepsIds | src/Pages/Builds.jsx:233-235 | editing keeps every id in place |
| BuildsPage.RemoveById | src/Pages/Builds.jsx:252 | exactly the builds whose id differs are kept |
| BuildsPage.RemoveByIdOrder | src/Pages/Builds.jsx:252 | order is kept; an absent id changes nothing |
| BuildsPage.ChampionRegion | src/Pages/Builds.jsx:269-271 | the region text of the first champion with the build's name, or nothing |
| BuildsPage.FilterBuilds | src/Pages/Builds.jsx:267-281 | a build is shown iff it matches the champion, the artifact and the region filters |
| BuildsPage.FilterBuildsOrder | src/Pages/Builds.jsx:267-281 | shown builds keep list order; with no filters, every build is shown |
| BuildsPage.RegionFilterMeansRefs | src/Pages/Builds.jsx:276-278 | the region filter matches iff the selected region is one of the champion's regionRefs |
| BuildsPage.UniqueRegions | src/Pages/Builds.jsx:258-265 | every non-empty regionRef once, strictly sorted |
| BuildsPage.Page.constructor | src/Pages/Builds.jsx:94-111 | the page's initial state |
| BuildsPage.Page.Load | src/Pages/Builds.jsx:130-144 | an ok reply sets the list to the data, or [] when there is none; a failed reply or a throw sets the error status and keeps the list |
| BuildsPage.Page.Save | src/Pages/Builds.jsx:146-182 | the list is posted and the status is the mapped outcome; the list itself is not touched |
| BuildsPage.Page.ValidateForm | src/Pages/Builds.jsx:184-199 | valid iff a champion is chosen and some artifact slot is filled; each error message is set accordingly |
| BuildsPage.Page.AddBuild | src/Pages/Builds.jsx:201-216 | an invalid form changes only the errors; otherwise the build with a fresh id is appended, the list posted, the form reset and the dialog closed, whatever the outcome |
| BuildsPage.Page.EditBuild | src/Pages/Builds.jsx:218-229 | the form takes the build's fields and the edit dialog opens |
| BuildsPage.Page.SaveEdit | src/Pages/Builds.jsx:231-248 | the builds with the current id are replaced and the list posted; with no current build, a non-empty list throws TypeError |
| BuildsPage.Page.DeleteBuild | src/Pages/Builds.jsx:250-256 | unconfirmed: nothing changes; confirmed: the build is removed and the rest posted, with no rollback |
| BuildsPage.Page.ExpireStatus | src/Pages/Builds.jsx:123-128 | the status is cleared |
| BuildsPage.Page.ToggleDropdown | src/Pages/Builds.jsx:113-115 | the open dropdown toggles as in SelectionGroup |
| BuildsPage.Page.DropdownSelect | src/Pages/Builds.jsx:117-121 | exactly the named filter takes the value |
| BuildsPage.Page.ResetFilters | src/Pages/Builds.jsx:283-287 | all three filters become "" |
| BuildsPage.Page.CloseAdd | src/Pages/Builds.jsx:360 | the add dialog closes |
| ClientServer.EntryBuild | src/Pages/Builds.jsx:203 | the build object the client sends for an entry, all of whose values are strings |
| ClientServer.Payload | src/Pages/Builds.jsx:154 | the posted array holds one object per build, in order |
| ClientServer.EntryRoundTrip | server.js:40-86 | a form of the client's shape is a fixed point of the normaliser and survives the store unchanged |
| ClientServer.ServerAcceptsValidForms | server.js:129-136 | the server accepts a client build iff its id is non-empty and the form passes the client's own check |
| ClientServer.AcceptableEntry | server.js:129-136 | the server's check on the client build is the client's check plus a non-empty id |
| ClientServer.PreparedKey | server.js:299-304 | a client build is stored under its own id |
| ClientServer.DeleteNeverReachesStore | src/Pages/Builds.jsx:250-256 | posting the list after a delete leaves the deleted build's row in the table |

## Left out

- Unicode: `toLowerCase` and `localeCompare` are parameters (`lower`, `locale`). The lemmas about name order require the comparator to be consistent. Strings are sequences of characters, with no UTF-16 surrogate handling.
- Numbers are integers. Floating point, NaN and `-0` are not modelled.
- The AWS transport: the items a Scan returns are a parameter of the load handler, and the document client's serializer is not part of this model. The model assumes the store refuses an item that is not made of tagged `S`/`L` values (fault `Rejected`).
- `fetch` is an outcome parameter (a response with `ok` and an optional `error`, or a thrown message). `uuidv4` is an id parameter. `window.confirm` is a boolean parameter. `Math.random` is an index parameter.
- Timers: the 200 ms intervals, the 5 s timeouts and the 5 s status expiry are explicit steps (`TickChampion`, `SettleChampion`, `ExpireStatus`). Real time is not modelled.
- Rendering, `localStorage`, `preloadImages`, `console` logging, `regionsList` and `iconRegions`, and the overlay click handler of AddBuildModal are left out. The click handler only calls `handleClose`.
- The health-check route (server.js:89-101) is left out: it replies 200 with `{status: "healthy", timestamp}` from the clock and touches no build. The error middleware (server.js:319-323) replies 500 with `err.message || "Lỗi server không xác định"`; it is modelled as `Server.Settle`, with the Express major version as a parameter, because the source does not fix it.
- SelectionGroup.InputChange: a slot field called with a null index, and field names outside the six form fields, are not modelled. Every caller passes the slot's index.
- BuildsPage.Page.EditBuild: the `items || blanks` and `powers || blanks` fallbacks are not modelled. The entries of the model always carry arrays.
- On the client, builds have string values only. Values loaded from the server that are not strings, and `__proto__` keys, are not modelled.
- `[...filteredItems].sort(...)` sorts a copy. Values in Dafny are immutable, so the copy is implicit.
- DataLists.ChampionChoiceOf: a champion whose `assets[0]` exists without `M.gameAbsolutePath` throws a TypeError in the source. The model only has an optional image.
- Server.Table.Load: the document client's Scan is assumed to return each stored row once, in the tagged `S`/`L` form the put sent. That is the hypothesis of `Server.StoredScanDecodes`, which is what shows that loading never fails. Load itself takes the scanned items as they come.
- Server.Table.Load: decodes with the corrected element decoding (`Codec.Element`), not the one written at server.js:80 (see Findings).
- Server.Table.Add: replies through the corrected catch (`Server.Catch`). As written, its catch block throws a ReferenceError instead of replying: under Express 5 the client gets a 500 carrying that ReferenceError, under Express 4 no reply (`Server.SettledCatchFinding`, see Findings).
- Server.Table.Update: replies through the corrected catch (`Server.Catch`). As written, its catch block throws a ReferenceError.
- Server.Table.UpdateItem: replies through the corrected catch (`Server.Catch`). As written, the update handler's catch block throws a ReferenceError.
- Server.Table.Delete: replies through the corrected catch (`Server.Catch`). As written, its catch block throws a ReferenceError.
- Server.Table.SaveBuilds: replies through the corrected catch (`Server.Catch`). As written, its catch block throws a ReferenceError.
- ClientServer.EntryRoundTrip: uses the corrected element decoding (`Codec.Element`). As written, empty slots do not survive the store (`Codec.AsWrittenRoundTrip`).
- The client-side model uses the intended element decoding (`Codec.Element`) for loaded builds. As written, empty slots come back as `{S: ""}` objects (see Findings).

## Findings

| source | as written | input that shows it | evidently intended | confidence | as-written member | corrected member |
|---|---|---|---|---|---|---|
| server.js:80 | `v.S ? v.S : v` treats the empty string as missing | a build with artifacts `["Crown", "", ""]`, saved and then loaded, assuming the Scan returns the row in the tagged form it was put in | `v.S !== undefined ? v.S : v`: empty slots come back as "" | high, not executed | Codec.AsWrittenRoundTrip | Codec.RoundTrip |
| server.js:158 | the catch blocks of add (158), update (227-229), delete (262) and save-builds (313) read `build`, `id` or `builds`, which are `const`s declared inside the `try` block, so the block throws a ReferenceError instead of replying: under Express 5 the error middleware then replies 500 with the ReferenceError's message, under Express 4 nothing is sent (`Server.SettledCatchFinding`) | any fault in the try block, for example a PutItem that the store refuses | reply 500 with the message of the fault that occurred | high, not executed | Server.CatchFinding | Server.Catch |
