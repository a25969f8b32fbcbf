/**
  The build page (Builds.jsx): the working set of builds, the form, the
  save status and the list filters. Every change to the working set is
  optimistic: the list is replaced first, then the whole list is posted to
  `save-builds`, and a failed save is only reported, never rolled back.
  The network's answer is an argument of each handler, and the generated
  uuid is one of the add handler.
*/
module BuildsPage {
  import opened Wrappers
  import opened Seqs
  import opened Sorting
  import opened GameData
  import opened DataLists
  import opened BuildForm
  import SelectionGroup
  import Text

  const ChampionRequired: string := "Vui lòng chọn tướng."
  const ArtifactRequired: string := "Vui lòng chọn ít nhất một cổ vật."

  /** The messages under the champion and artifact pickers; "" shows none. */
  datatype Errors = Errors(championName: string, artifacts: string)

  datatype StatusKind = Success | Error
  datatype Status = Status(kind: StatusKind, message: string)

  /** What a `save-builds` request comes back with: a response, or an exception (network, or a body that is not JSON) with its message. */
  datatype SaveOutcome =
    | Response(ok: bool, error: Option<string>)   // `error` is the `error` field of a refused request's body
    | Thrown(message: string)

  /** What the `load-builds` request comes back with; `data` is the parsed body. */
  datatype LoadOutcome =
    | Loaded(ok: bool, data: Option<seq<Entry>>)
    | LoadThrown(message: string)

  /** The form passes `validateForm`: a champion is chosen and some artifact slot is filled. */
  predicate FormValid(f: Form) {
    f.championName != "" && AnyFilled(f.artifacts)
  }

  /** The success message of each save action. */
  function SuccessMessage(action: string): (r: string)
    ensures r != ""
    ensures action == "add" ==> r == "Đã thêm build thành công!"
    ensures action == "edit" ==> r == "Đã cập nhật build thành công!"
    ensures action == "delete" ==> r == "Đã xóa build thành công!"
    ensures action !in {"add", "edit", "delete"} ==> r == "Đã lưu builds thành công!"
  {
    match action
    case "add" => "Đã thêm build thành công!"
    case "edit" => "Đã cập nhật build thành công!"
    case "delete" => "Đã xóa build thành công!"
    case _ => "Đã lưu builds thành công!"
  }

  /**
    The status `saveBuildsToFile` sets: success with the action's message
    exactly when the response is ok; otherwise an error carrying the
    server's message, or the exception's, or a fixed fallback when that
    message is empty.
  */
  function SaveStatus(action: string, outcome: SaveOutcome): (r: Status)
    ensures r.message != ""
    ensures r.kind == Success <==> outcome.Response? && outcome.ok
    ensures r.kind == Success ==> r.message == SuccessMessage(action)
    ensures outcome.Response? && !outcome.ok ==>
      r.message == OrElse(outcome.error, "Lỗi khi lưu builds")
    ensures outcome.Thrown? ==> r.message == (if outcome.message != "" then outcome.message else "Không thể lưu builds.")
  {
    match outcome
    case Response(ok, error) =>
      if ok then Status(Success, SuccessMessage(action))
      else Status(Error, OrElse(error, "Lỗi khi lưu builds"))
    case Thrown(message) =>
      Status(Error, if message != "" then message else "Không thể lưu builds.")
  }

  /**
    `builds.map(b => b.id === id ? { id: b.id, ...form } : b)`: every
    entry with that id takes the form and keeps its id; every other entry
    and the length are kept.
  */
  function ReplaceById(builds: seq<Entry>, id: string, form: Form): (r: seq<Entry>)
    ensures |r| == |builds|
    ensures forall i :: 0 <= i < |r| && builds[i].id == id ==> r[i] == Entry(id, form)
    ensures forall i :: 0 <= i < |r| && builds[i].id != id ==> r[i] == builds[i]
  {
    seq(|builds|, i requires 0 <= i < |builds| => if builds[i].id == id then Entry(builds[i].id, form) else builds[i])
  }

  /** Replacing keeps the ids, in order. */
  lemma ReplaceKeepsIds(builds: seq<Entry>, id: string, form: Form)
    ensures Ids(ReplaceById(builds, id, form)) == Ids(builds)
  {
  }

  predicate NotId(id: string, e: Entry) {
    e.id != id
  }

  /** `builds.filter(b => b.id !== id)`: the entries with another id. */
  function RemoveById(builds: seq<Entry>, id: string): (r: seq<Entry>)
    ensures forall e :: e in r <==> e in builds && e.id != id
    ensures id !in Ids(r)
  {
    Filter(builds, (e: Entry) => NotId(id, e))
  }

  /** Deleting keeps the others in their order, and an id that is absent leaves the list as it was. */
  lemma RemoveByIdOrder(builds: seq<Entry>, id: string)
    ensures IsSubsequence(RemoveById(builds, id), builds)
    ensures id !in Ids(builds) ==> RemoveById(builds, id) == builds
  {
    FilterIsSubsequence(builds, (e: Entry) => NotId(id, e));
    if id !in Ids(builds) {
      forall e | e in builds ensures NotId(id, e) {
        var i :| 0 <= i < |builds| && builds[i] == e;
        assert Ids(builds)[i] == e.id;
      }
      FilterAll(builds, (e: Entry) => NotId(id, e));
    }
  }

  /** The region text of the first champion of the list with that name, if there is one. */
  function ChampionRegion(choices: seq<ChampionChoice>, name: string): (r: Option<string>)
    ensures r.None? <==> forall c :: c in choices ==> c.name != Some(name)
    ensures r.Some? ==> exists i :: (0 <= i < |choices| && choices[i].name == Some(name) && choices[i].region == r.value &&
      forall j :: 0 <= j < i ==> choices[j].name != Some(name))
  {
    var found := Find(choices, (c: ChampionChoice) => c.name == Some(name));
    if found.Some? then Some(found.value.region) else None
  }

  /** The three tests of `filteredBuilds`; an empty filter value passes every build. */
  predicate MatchesFilters(e: Entry, choices: seq<ChampionChoice>, champion: string, artifact: string, region: string) {
    && (champion == "" || e.form.championName == champion)
    && (artifact == "" || artifact in e.form.artifacts)
    && (region == "" ||
        var r := ChampionRegion(choices, e.form.championName);
        r.Some? && region in Text.Split(r.value, RegionSeparator))
  }

  /**
    `filteredBuilds`: the builds of the chosen champion, holding the chosen
    artifact, whose champion's region list contains the chosen region; a
    build whose champion is not in the list fails a region filter.
  */
  function FilterBuilds(builds: seq<Entry>, choices: seq<ChampionChoice>, champion: string, artifact: string, region: string): (r: seq<Entry>)
    ensures forall e :: e in r <==>
      && e in builds
      && (champion == "" || e.form.championName == champion)
      && (artifact == "" || artifact in e.form.artifacts)
      && (region == "" ||
          var cr := ChampionRegion(choices, e.form.championName);
          cr.Some? && region in Text.Split(cr.value, RegionSeparator))
  {
    Filter(builds, (e: Entry) => MatchesFilters(e, choices, champion, artifact, region))
  }

  /** The filter keeps the list order, and with all three filters empty it keeps the whole list. */
  lemma FilterBuildsOrder(builds: seq<Entry>, choices: seq<ChampionChoice>, champion: string, artifact: string, region: string)
    ensures IsSubsequence(FilterBuilds(builds, choices, champion, artifact, region), builds)
    ensures champion == "" && artifact == "" && region == "" ==> FilterBuilds(builds, choices, champion, artifact, region) == builds
  {
    FilterIsSubsequence(builds, (e: Entry) => MatchesFilters(e, choices, champion, artifact, region));
    if champion == "" && artifact == "" && region == "" {
      FilterAll(builds, (e: Entry) => MatchesFilters(e, choices, champion, artifact, region));
    }
  }

  /**
    The region filter against the champion data: when the first champion
    of that name lists well-formed region references, a build of that
    champion passes exactly when the chosen region is one of them.
  */
  lemma RegionFilterMeansRefs(champs: seq<Champion>, e: Entry, region: string, i: nat)
    requires i < |champs| && champs[i].name == Some(e.form.championName)
    requires forall j :: 0 <= j < i ==> champs[j].name != Some(e.form.championName)
    requires champs[i].regionRefs.Some? && champs[i].regionRefs.value != [] && champs[i].regionRefs.value != [""]
    requires forall k :: 0 <= k < |champs[i].regionRefs.value| ==> !Text.Includes(champs[i].regionRefs.value[k], RegionSeparator)
    requires region != ""
    ensures MatchesFilters(e, ChampionChoices(champs), "", "", region) <==> region in champs[i].regionRefs.value
  {
    var choices := ChampionChoices(champs);
    var name := e.form.championName;
    var r := ChampionRegion(choices, name);
    assert choices[i].name == Some(name);
    var k :| 0 <= k < |choices| && choices[k].name == Some(name) && choices[k].region == r.value &&
      forall j :: 0 <= j < k ==> choices[j].name != Some(name);
    assert k == i;
    RegionTextSplit(champs[i].regionRefs.value);
  }

  /**
    `uniqueRegions` of the build page: each non-empty region reference of
    some champion, once, in increasing order.
  */
  function UniqueRegions(champs: seq<Champion>): (r: seq<string>)
    ensures forall x :: x in r <==> x != "" && exists c :: c in champs && c.regionRefs.Some? && x in c.regionRefs.value
    ensures SortedStrictly(r)
  {
    var refs := FlatMap(champs, RefsOf);
    var kept := Filter(refs, NonEmpty);
    assert forall x :: x in kept <==> x != "" && x in refs;
    SortedUnique(kept)
  }

  /** `champ.regionRefs || []`. */
  function RefsOf(c: Champion): seq<string> {
    c.regionRefs.GetOr([])
  }

  predicate NonEmpty(s: string) {
    s != ""
  }

  /** The page's state. `posted` records the body of every `save-builds` request, in order. */
  class Page {
    var builds: seq<Entry>
    var form: Form
    var errors: Errors
    var status: Option<Status>
    var current: Option<Entry>
    var addOpen: bool
    var editOpen: bool
    var filterChampion: string
    var filterArtifact: string
    var selectedRegion: string
    var openDropdown: Option<string>
    var posted: seq<seq<Entry>>

    constructor ()
      ensures builds == [] && form == Empty && errors == Errors("", "") && status.None? && current.None?
      ensures !addOpen && !editOpen && filterChampion == "" && filterArtifact == "" && selectedRegion == ""
      ensures openDropdown.None? && posted == []
    {
      builds := [];
      form := Empty;
      errors := Errors("", "");
      status := None;
      current := None;
      addOpen := false;
      editOpen := false;
      filterChampion := "";
      filterArtifact := "";
      selectedRegion := "";
      openDropdown := None;
      posted := [];
    }

    /**
      The load effect: an ok response replaces the working set with the
      body (`data || []`); a refused one or an exception only sets an error
      status.
    */
    method Load(outcome: LoadOutcome)
      modifies this
      ensures outcome.Loaded? && outcome.ok ==> builds == outcome.data.GetOr([]) && status == old(status)
      ensures outcome.Loaded? && !outcome.ok ==> builds == old(builds) && status == Some(Status(Error, "Lỗi khi tải builds từ server"))
      ensures outcome.LoadThrown? ==>
        builds == old(builds) && status == Some(Status(Error, if outcome.message != "" then outcome.message else "Không thể tải builds."))
      ensures form == old(form) && errors == old(errors) && current == old(current) && posted == old(posted)
      ensures addOpen == old(addOpen) && editOpen == old(editOpen) && openDropdown == old(openDropdown)
      ensures filterChampion == old(filterChampion) && filterArtifact == old(filterArtifact) && selectedRegion == old(selectedRegion)
    {
      match outcome
      case Loaded(ok, data) =>
        if !ok {
          status := Some(Status(Error, "Lỗi khi tải builds từ server"));
        } else {
          builds := data.GetOr([]);
        }
      case LoadThrown(message) =>
        status := Some(Status(Error, if message != "" then message else "Không thể tải builds."));
    }

    /** `saveBuildsToFile(list, action)`: posts the list and reports the outcome. */
    method Save(list: seq<Entry>, action: string, outcome: SaveOutcome)
      modifies this
      ensures posted == old(posted) + [list] && status == Some(SaveStatus(action, outcome))
      ensures builds == old(builds) && form == old(form) && errors == old(errors) && current == old(current)
      ensures addOpen == old(addOpen) && editOpen == old(editOpen) && openDropdown == old(openDropdown)
      ensures filterChampion == old(filterChampion) && filterArtifact == old(filterArtifact) && selectedRegion == old(selectedRegion)
    {
      posted := posted + [list];
      var message: string;
      match outcome
      case Response(ok, error) =>
        if !ok {
          status := Some(Status(Error, OrElse(error, "Lỗi khi lưu builds")));
          return;
        }
        match action {
          case "add" => message := "Đã thêm build thành công!";
          case "edit" => message := "Đã cập nhật build thành công!";
          case "delete" => message := "Đã xóa build thành công!";
          case _ => message := "Đã lưu builds thành công!";
        }
        status := Some(Status(Success, message));
      case Thrown(m) =>
        status := Some(Status(Error, if m != "" then m else "Không thể lưu builds."));
    }

    /**
      `validateForm`: true exactly when a champion is chosen and some
      artifact slot is filled; each error message is set exactly when its
      test fails. Nothing but the messages changes.
    */
    method ValidateForm() returns (valid: bool)
      modifies this
      ensures valid <==> FormValid(form)
      ensures errors.championName == (if form.championName == "" then ChampionRequired else "")
      ensures errors.artifacts == (if AnyFilled(form.artifacts) then "" else ArtifactRequired)
      ensures builds == old(builds) && form == old(form) && status == old(status) && current == old(current) && posted == old(posted)
      ensures addOpen == old(addOpen) && editOpen == old(editOpen) && openDropdown == old(openDropdown)
      ensures filterChampion == old(filterChampion) && filterArtifact == old(filterArtifact) && selectedRegion == old(selectedRegion)
    {
      valid := true;
      var next := Errors("", "");
      if form.championName == "" {
        next := next.(championName := ChampionRequired);
        valid := false;
      }
      var k := 0;
      var some := false;
      while k < |form.artifacts|
        invariant 0 <= k <= |form.artifacts|
        invariant some <==> exists j :: 0 <= j < k && form.artifacts[j] != ""
      {
        some := some || form.artifacts[k] != "";
        k := k + 1;
      }
      if !some {
        next := next.(artifacts := ArtifactRequired);
        valid := false;
      }
      errors := next;
    }

    /**
      `handleAddBuild(uuid)`: an invalid form stops after the messages.
      Otherwise the build `{ id, ...form }` is appended, the new list is
      posted, and whatever the outcome the new build stays, the form is
      emptied and the dialog closes.
    */
    method AddBuild(id: string, outcome: SaveOutcome)
      modifies this
      ensures !FormValid(old(form)) ==> builds == old(builds) && posted == old(posted) && status == old(status) && form == old(form) && addOpen == old(addOpen)
      ensures FormValid(old(form)) ==>
        && builds == old(builds) + [Entry(id, old(form))]
        && posted == old(posted) + [builds]
        && status == Some(SaveStatus("add", outcome))
        && form == Empty && !addOpen
      ensures errors.championName == (if old(form).championName == "" then ChampionRequired else "")
      ensures errors.artifacts == (if AnyFilled(old(form).artifacts) then "" else ArtifactRequired)
      ensures current == old(current) && editOpen == old(editOpen) && openDropdown == old(openDropdown)
      ensures filterChampion == old(filterChampion) && filterArtifact == old(filterArtifact) && selectedRegion == old(selectedRegion)
    {
      var valid := ValidateForm();
      if !valid {
        return;
      }
      var next := builds + [Entry(id, form)];
      builds := next;
      Save(next, "add", outcome);
      form := Empty;
      addOpen := false;
    }

    /** `handleEditBuild(b)`: remembers the build, loads its fields into the form and opens the edit dialog. */
    method EditBuild(b: Entry)
      modifies this
      ensures current == Some(b) && form == b.form && editOpen
      ensures builds == old(builds) && errors == old(errors) && status == old(status) && posted == old(posted)
      ensures addOpen == old(addOpen) && openDropdown == old(openDropdown)
      ensures filterChampion == old(filterChampion) && filterArtifact == old(filterArtifact) && selectedRegion == old(selectedRegion)
    {
      current := Some(b);
      form := b.form;
      editOpen := true;
    }

    /**
      `handleSaveEdit`: an invalid form stops after the messages. Otherwise
      every entry with the remembered build's id takes the form, keeping
      its id; the new list is posted, the dialog closes, the form empties
      and the remembered build is dropped. With no remembered build the
      `currentBuild.id` read throws as soon as the list has an entry, and
      the handler stops (`thrown`).
    */
    method SaveEdit(outcome: SaveOutcome) returns (thrown: bool)
      modifies this
      ensures thrown <==> FormValid(old(form)) && old(current).None? && old(builds) != []
      ensures !FormValid(old(form)) || thrown ==>
        builds == old(builds) && posted == old(posted) && status == old(status) && form == old(form)
        && current == old(current) && editOpen == old(editOpen)
      ensures FormValid(old(form)) && !thrown ==>
        && builds == (if old(current).Some? then ReplaceById(old(builds), old(current).value.id, old(form)) else [])
        && posted == old(posted) + [builds]
        && status == Some(SaveStatus("edit", outcome))
        && !editOpen && form == Empty && current.None?
      ensures errors.championName == (if old(form).championName == "" then ChampionRequired else "")
      ensures errors.artifacts == (if AnyFilled(old(form).artifacts) then "" else ArtifactRequired)
      ensures addOpen == old(addOpen) && openDropdown == old(openDropdown)
      ensures filterChampion == old(filterChampion) && filterArtifact == old(filterArtifact) && selectedRegion == old(selectedRegion)
    {
      thrown := false;
      var valid := ValidateForm();
      if !valid {
        return;
      }
      var next: seq<Entry>;
      if current.Some? {
        next := ReplaceById(builds, current.value.id, form);
      } else if builds != [] {
        thrown := true;
        return;
      } else {
        next := [];
      }
      builds := next;
      Save(next, "edit", outcome);
      editOpen := false;
      form := Empty;
      current := None;
    }

    /**
      `handleDeleteBuild(id)`: unless the user confirms nothing happens;
      otherwise every entry with that id is dropped, the others keep their
      order, and the new list is posted.
    */
    method DeleteBuild(id: string, confirmed: bool, outcome: SaveOutcome)
      modifies this
      ensures !confirmed ==> unchanged(this)
      ensures confirmed ==>
        && builds == RemoveById(old(builds), id)
        && posted == old(posted) + [builds]
        && status == Some(SaveStatus("delete", outcome))
      ensures form == old(form) && errors == old(errors) && current == old(current)
      ensures addOpen == old(addOpen) && editOpen == old(editOpen) && openDropdown == old(openDropdown)
      ensures filterChampion == old(filterChampion) && filterArtifact == old(filterArtifact) && selectedRegion == old(selectedRegion)
    {
      if confirmed {
        var next := RemoveById(builds, id);
        builds := next;
        Save(next, "delete", outcome);
      }
    }

    /** The status timer: the message disappears; nothing else changes. */
    method ExpireStatus()
      modifies this
      ensures status.None?
      ensures builds == old(builds) && form == old(form) && errors == old(errors) && current == old(current) && posted == old(posted)
      ensures addOpen == old(addOpen) && editOpen == old(editOpen) && openDropdown == old(openDropdown)
      ensures filterChampion == old(filterChampion) && filterArtifact == old(filterArtifact) && selectedRegion == old(selectedRegion)
    {
      status := None;
    }

    /** `handleToggleDropdown(id)`, the same rule as the slot editor's. */
    method ToggleDropdown(id: Option<string>)
      modifies this
      ensures openDropdown == SelectionGroup.Toggle(old(openDropdown), id)
      ensures builds == old(builds) && form == old(form) && errors == old(errors) && status == old(status) && current == old(current) && posted == old(posted)
      ensures addOpen == old(addOpen) && editOpen == old(editOpen)
      ensures filterChampion == old(filterChampion) && filterArtifact == old(filterArtifact) && selectedRegion == old(selectedRegion)
    {
      openDropdown := SelectionGroup.Toggle(openDropdown, id);
    }

    /** `handleDropdownSelect(name, value)`: sets the filter the name designates; any other name changes nothing. */
    method DropdownSelect(name: string, value: string)
      modifies this
      ensures filterChampion == (if name == "filterChampion" then value else old(filterChampion))
      ensures filterArtifact == (if name == "filterArtifact" then value else old(filterArtifact))
      ensures selectedRegion == (if name == "selectedRegion" then value else old(selectedRegion))
      ensures builds == old(builds) && form == old(form) && errors == old(errors) && status == old(status) && current == old(current) && posted == old(posted)
      ensures addOpen == old(addOpen) && editOpen == old(editOpen) && openDropdown == old(openDropdown)
    {
      if name == "filterChampion" { filterChampion := value; }
      if name == "filterArtifact" { filterArtifact := value; }
      if name == "selectedRegion" { selectedRegion := value; }
    }

    /** `resetFilters`: all three filters empty, so the whole list shows (`FilterBuildsOrder`). */
    method ResetFilters()
      modifies this
      ensures filterChampion == "" && filterArtifact == "" && selectedRegion == ""
      ensures builds == old(builds) && form == old(form) && errors == old(errors) && status == old(status) && current == old(current) && posted == old(posted)
      ensures addOpen == old(addOpen) && editOpen == old(editOpen) && openDropdown == old(openDropdown)
    {
      filterChampion := "";
      filterArtifact := "";
      selectedRegion := "";
    }

    /** The add dialog's `onClose`: only the dialog closes; the form keeps what was typed. */
    method CloseAdd()
      modifies this
      ensures !addOpen
      ensures builds == old(builds) && form == old(form) && errors == old(errors) && status == old(status) && current == old(current) && posted == old(posted)
      ensures editOpen == old(editOpen) && openDropdown == old(openDropdown)
      ensures filterChampion == old(filterChampion) && filterArtifact == old(filterArtifact) && selectedRegion == old(selectedRegion)
    {
      addOpen := false;
    }
  }
}
