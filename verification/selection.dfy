/** The slot editor of the build form (SelectionGroup.jsx). */
module SelectionGroup {
  import opened Wrappers
  import opened BuildForm

  /** The form fields a selection can name. */
  datatype Field = ChampionName | Artifacts | Items | Powers | Description | Creator

  /** A field's value: a string, or one of the three slot arrays. */
  datatype FieldValue = Text(s: string) | Slots(xs: seq<string>)

  predicate IsSlotField(f: Field) {
    f.Artifacts? || f.Items? || f.Powers?
  }

  /** `formData[name]`. */
  function Read(form: Form, f: Field): (r: FieldValue)
    ensures r.Slots? <==> IsSlotField(f)
  {
    match f
    case ChampionName => Text(form.championName)
    case Artifacts => Slots(form.artifacts)
    case Items => Slots(form.items)
    case Powers => Slots(form.powers)
    case Description => Text(form.description)
    case Creator => Text(form.creator)
  }

  /** `{ ...formData, [name]: v }`: the named field takes `v`, every other field is kept. */
  function Write(form: Form, f: Field, v: FieldValue): (r: Form)
    requires v.Slots? <==> IsSlotField(f)
    ensures Read(r, f) == v
    ensures forall g :: g != f ==> Read(r, g) == Read(form, g)
  {
    match f
    case ChampionName => form.(championName := v.s)
    case Artifacts => form.(artifacts := v.xs)
    case Items => form.(items := v.xs)
    case Powers => form.(powers := v.xs)
    case Description => form.(description := v.s)
    case Creator => form.(creator := v.s)
  }

  /**
    `handleInputChange(name, value, index)`: for a slot field with an
    index, the array is copied, the slot written, and the copy stored; any
    other field is overwritten with the value (an index given with it is
    ignored).
  */
  method InputChange(form: Form, field: Field, value: string, index: Option<nat>) returns (r: Form)
    requires IsSlotField(field) ==> index.Some? && index.value < |Read(form, field).xs|
    ensures forall g :: g != field ==> Read(r, g) == Read(form, g)
    ensures !IsSlotField(field) ==> Read(r, field) == Text(value)
    ensures IsSlotField(field) ==>
      var before, after := Read(form, field).xs, Read(r, field).xs;
      && |after| == |before|
      && after[index.value] == value
      && forall j :: 0 <= j < |before| && j != index.value ==> after[j] == before[j]
  {
    if IsSlotField(field) && index.Some? {
      var current := Read(form, field).xs;
      var updated := new string[|current|](j requires 0 <= j < |current| => current[j]);
      updated[index.value] := value;
      r := Write(form, field, Slots(updated[..]));
    } else {
      r := Write(form, field, Text(value));
    }
  }

  /**
    `prev === dropdownId ? null : dropdownId`: toggling the open dropdown
    closes it, toggling another opens that one, and a request with null
    always closes.
  */
  function Toggle(prev: Option<string>, id: Option<string>): (r: Option<string>)
    ensures r.Some? <==> id.Some? && prev != id
    ensures r.Some? ==> r == id
  {
    if prev == id then None else id
  }

  /** Toggling the same dropdown twice from closed returns to closed; from any state, a null request closes. */
  lemma ToggleTwice(id: string)
    ensures Toggle(Toggle(None, Some(id)), Some(id)) == None
    ensures forall prev :: Toggle(prev, None) == None
  {
  }
}
