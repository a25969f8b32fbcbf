/** The searchable dropdown of the build page (CustomDropdown.jsx). */
module CustomDropdown {
  import opened Wrappers
  import opened JsValue
  import opened Seqs
  import Text

  /** Whether an option whose name is known matches the folded search term. */
  function Matches<T>(nameOf: T -> Option<string>, search: string, lower: string -> string): T -> bool {
    (o: T) => nameOf(o).Some? && Text.Includes(lower(nameOf(o).value), lower(search))
  }

  /**
    `options.filter(o => o.name.toLowerCase().includes(searchTerm.toLowerCase()))`.
    An option without a name makes `o.name.toLowerCase()` throw a
    `TypeError`, which ends the render. Case folding is a parameter:
    `toLowerCase` follows Unicode rules this model does not spell out.
  */
  function FilterOptions<T(!new)>(options: seq<T>, nameOf: T -> Option<string>, search: string, lower: string -> string): (r: Result<seq<T>>)
    ensures r.Fail? <==> exists x :: x in options && nameOf(x).None?
    ensures r.Fail? ==> r.fault == TypeError
    ensures r.Ok? ==> forall x :: x in r.value <==> x in options && Text.Includes(lower(nameOf(x).value), lower(search))
  {
    if exists i :: 0 <= i < |options| && nameOf(options[i]).None? then Fail(TypeError)
    else Ok(Filter(options, Matches(nameOf, search, lower)))
  }

  /** The options shown keep the order of the option list. */
  lemma FilterOptionsOrder<T(!new)>(options: seq<T>, nameOf: T -> Option<string>, search: string, lower: string -> string)
    ensures var r := FilterOptions(options, nameOf, search, lower);
      r.Ok? ==> IsSubsequence(r.value, options)
  {
    FilterIsSubsequence(options, Matches(nameOf, search, lower));
  }

  /** An empty search term (which folds to "") shows every option, in order, when every option has a name. */
  lemma EmptySearchShowsAll<T(!new)>(options: seq<T>, nameOf: T -> Option<string>, lower: string -> string)
    requires lower("") == ""
    ensures (forall x :: x in options ==> nameOf(x).Some?) ==> FilterOptions(options, nameOf, "", lower) == Ok(options)
  {
    if forall x :: x in options ==> nameOf(x).Some? {
      forall o | o in options ensures Matches(nameOf, "", lower)(o) {
        Text.IncludesEmpty(lower(nameOf(o).value));
      }
      FilterAll(options, Matches(nameOf, "", lower));
    }
  }

  /** What the dropdown asks of its parent, in order. */
  datatype Request =
    | Select(name: string, value: string, index: Option<nat>)   // `onSelect(name, value, index)`
    | ToggleTo(id: Option<string>)                              // `onToggle(id)`

  /** One dropdown: its props, its search term, and the requests it has made. */
  class Dropdown {
    const name: string
    const dropdownId: string
    const index: Option<nat>
    var searchTerm: string
    var requests: seq<Request>

    constructor (name: string, dropdownId: string, index: Option<nat>)
      ensures this.name == name && this.dropdownId == dropdownId && this.index == index
      ensures searchTerm == "" && requests == []
    {
      this.name := name;
      this.dropdownId := dropdownId;
      this.index := index;
      searchTerm := "";
      requests := [];
    }

    /** `handleSelect(v)`: forward the choice unchanged, clear the search, ask to close. */
    method HandleSelect(value: string)
      modifies this
      ensures requests == old(requests) + [Select(name, value, index), ToggleTo(None)]
      ensures searchTerm == ""
    {
      requests := requests + [Select(name, value, index)];
      searchTerm := "";
      requests := requests + [ToggleTo(None)];
    }

    /** The placeholder row: selects the empty sentinel. */
    method SelectPlaceholder()
      modifies this
      ensures requests == old(requests) + [Select(name, "", index), ToggleTo(None)]
      ensures searchTerm == ""
    {
      HandleSelect("");
    }

    /** `handleToggle()`: ask for this dropdown's own id; the search term stays. */
    method HandleToggle()
      modifies this
      ensures requests == old(requests) + [ToggleTo(Some(dropdownId))]
      ensures searchTerm == old(searchTerm)
    {
      requests := requests + [ToggleTo(Some(dropdownId))];
    }
  }
}
