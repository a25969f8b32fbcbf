/**
  The build form of the client (`formData` in Builds.jsx) and the entries of
  its working set. Every field the form edits is a string; the three slot
  arrays hold one string per slot, "" for an empty slot.
*/
module BuildForm {
  import opened BuildRecord

  datatype Form = Form(
    championName: string,
    artifacts: seq<string>,
    items: seq<string>,
    powers: seq<string>,
    description: string,
    creator: string)

  /** The form the page starts with and returns to after a save: every field empty, 3, 6 and 6 slots. */
  const Empty: Form := Form("", ["", "", ""], ["", "", "", "", "", ""], ["", "", "", "", "", ""], "", "")

  /** A build of the working set: `{ id, ...formData }`. */
  datatype Entry = Entry(id: string, form: Form)

  /** The empty form has the slot counts of a normalised build. */
  lemma EmptyShape()
    ensures |Empty.artifacts| == ArtifactSlots && |Empty.items| == ItemSlots && |Empty.powers| == PowerSlots
    ensures forall s :: s in Empty.artifacts + Empty.items + Empty.powers ==> s == ""
  {
  }

  /** `xs.some(x => x !== "")`: some slot is filled. */
  predicate AnyFilled(xs: seq<string>) {
    exists j :: 0 <= j < |xs| && xs[j] != ""
  }

  /** The ids of a working set, in order. */
  function Ids(builds: seq<Entry>): (r: seq<string>)
    ensures |r| == |builds| && forall i :: 0 <= i < |r| ==> r[i] == builds[i].id
  {
    seq(|builds|, i requires 0 <= i < |builds| => builds[i].id)
  }
}
