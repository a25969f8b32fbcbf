/**
  The client and the server together. The build page posts its whole
  working set to `save-builds` (Builds.jsx) and the server upserts each
  element that passes its check (server.js); nothing the client sends
  can remove a stored row.
*/
module ClientServer {
  import opened JsValue
  import opened BuildRecord
  import opened Codec
  import opened Server
  import opened BuildForm
  import opened BuildsPage

  /** The strings of a slot array as JSON values. */
  function Strings(xs: seq<string>): (r: seq<Value>)
    ensures |r| == |xs| && forall i :: 0 <= i < |xs| ==> r[i] == Str(xs[i])
  {
    seq(|xs|, i requires 0 <= i < |xs| => Str(xs[i]))
  }

  /** A client entry as a record: every scalar and every slot a string. */
  function EntryBuild(e: Entry): (b: Build)
    ensures AllStrings(b.artifacts) && AllStrings(b.items) && AllStrings(b.powers)
  {
    Build(Str(e.id), Str(e.form.championName), Strings(e.form.artifacts), Strings(e.form.items),
          Strings(e.form.powers), Str(e.form.description), Str(e.form.creator))
  }

  /** `{ id, ...formData }` after `JSON.stringify` and the server's JSON parser: the keys in the form's order. */
  function ToValue(e: Entry): (r: Value)
    ensures r.Obj? && Keys(r.fields) == CanonicalKeys
  {
    EntryBuild(e).Object()
  }

  /** The body of a `save-builds` request: the working set as a JSON array. */
  function Payload(list: seq<Entry>): (r: Value)
    ensures r.Arr? && |r.elems| == |list| && forall i :: 0 <= i < |list| ==> r.elems[i] == ToValue(list[i])
  {
    Arr(seq(|list|, i requires 0 <= i < |list| => ToValue(list[i])))
  }

  /** The slot counts the form always has (see `BuildForm.EmptyShape`). */
  predicate Shaped(f: Form) {
    |f.artifacts| == ArtifactSlots && |f.items| == ItemSlots && |f.powers| == PowerSlots
  }

  /**
    An entry of the form's shape is already normalised, and, with the
    intended element decoding, comes back from the store as it was sent.
  */
  lemma EntryRoundTrip(e: Entry)
    requires Shaped(e.form)
    ensures Standardize(ToValue(e)) == EntryBuild(e)
    ensures Decode(Encode(ToValue(e).fields), Element) == Ok(EntryBuild(e))
  {
    StandardizeCanonical(EntryBuild(e));
    RoundTrip(EntryBuild(e));
  }

  /**
    The server's check and the page's agree: an entry of the form's shape
    passes `save-builds`' check exactly when it has an id and the form
    passes `validateForm`.
  */
  lemma ServerAcceptsValidForms(e: Entry)
    requires Shaped(e.form)
    ensures Acceptable(Standardize(ToValue(e))) <==> e.id != "" && FormValid(e.form)
  {
    StandardizeCanonical(EntryBuild(e));
    AcceptableEntry(e);
  }

  lemma AcceptableEntry(e: Entry)
    ensures Acceptable(EntryBuild(e)) <==> e.id != "" && FormValid(e.form)
  {
    var a := EntryBuild(e).artifacts;
    assert (exists i :: 0 <= i < |a| && Truthy(a[i])) <==> AnyFilled(e.form.artifacts) by {
      assert forall i :: 0 <= i < |a| ==> (Truthy(a[i]) <==> e.form.artifacts[i] != "");
    }
  }

  /** A payload element that the server stores is stored under its entry's id. */
  lemma PreparedKey(e: Entry)
    ensures Prepare(ToValue(e)).Ready? ==> Prepare(ToValue(e)).key == e.id
  {
    PrepareCases(ToValue(e));
    ObjectFields(EntryBuild(e));
  }

  /**
    A delete on the page never reaches the store: after the page drops the
    entries with `id` and posts the rest, the row stored under `id`, if
    any, is still there and unchanged, whatever the save does with the
    other elements.
  */
  lemma DeleteNeverReachesStore(rows: map<string, seq<(string, Value)>>, builds: seq<Entry>, id: string)
    ensures var after := SaveAll(rows, PrepareAll(Payload(RemoveById(builds, id)).elems)).0;
      && (id in after <==> id in rows)
      && (id in rows ==> after[id] == rows[id])
  {
    var list := RemoveById(builds, id);
    var steps := PrepareAll(Payload(list).elems);
    forall i | 0 <= i < |steps| && steps[i].Ready? ensures steps[i].key != id {
      assert list[i] in list;
      PreparedKey(list[i]);
    }
    SaveAllUntouched(rows, steps, id);
  }
}
