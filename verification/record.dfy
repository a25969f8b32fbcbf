/**
  The canonical build record of the server (`standardizeBuildData`,
  server.js) and the request check that the add, update and save-builds
  handlers apply to it.
*/
module BuildRecord {
  import opened JsValue

  const ArtifactSlots: nat := 3
  const ItemSlots: nat := 6
  const PowerSlots: nat := 6

  /**
    The object `standardizeBuildData` returns. The scalars keep whatever
    truthy value the request carried (a number id stays a number); the slot
    arrays keep whatever values they carried.
  */
  datatype Build = Build(
    id: Value,
    championName: Value,
    artifacts: seq<Value>,
    items: seq<Value>,
    powers: seq<Value>,
    description: Value,
    creator: Value)
  {
    /** The object itself, with its keys in the order the literal writes them. */
    function Object(): (r: Value)
      ensures r.Obj? && Keys(r.fields) == CanonicalKeys
    {
      Obj([
        ("id", id),
        ("championName", championName),
        ("artifacts", Arr(artifacts)),
        ("items", Arr(items)),
        ("powers", Arr(powers)),
        ("description", description),
        ("creator", creator)])
    }

    /** The shape every standardized build has. */
    predicate Canonical() {
      && |artifacts| == ArtifactSlots && |items| == ItemSlots && |powers| == PowerSlots
      && Scalar(id) && Scalar(championName) && Scalar(description) && Scalar(creator)
    }
  }

  const CanonicalKeys: seq<string> := ["id", "championName", "artifacts", "items", "powers", "description", "creator"]

  /** A scalar after `x || ""`: a truthy value, or the empty string. */
  predicate Scalar(v: Value) {
    Truthy(v) || v == Str("")
  }

  /** `x || ""`. */
  function OrEmpty(v: Value): (r: Value)
    ensures Scalar(r)
    ensures Truthy(v) ==> r == v
    ensures !Truthy(v) ==> r == Str("")
  {
    if Truthy(v) then v else Str("")
  }

  /** `n` empty strings. */
  function Blanks(n: nat): (r: seq<Value>)
    ensures |r| == n
    ensures forall i :: 0 <= i < n ==> r[i] == Str("")
  {
    seq(n, _ => Str(""))
  }

  /**
    `Array.isArray(v) ? [...v.slice(0, n), "", …] .slice(0, n) : ["", …]`:
    exactly `n` slots, slot `i` is the `i`-th element when the array has
    one and the empty string otherwise.
  */
  function Slots(v: Value, n: nat): (r: seq<Value>)
    ensures |r| == n
    ensures v.Arr? ==> forall i :: 0 <= i < n ==> r[i] == (if i < |v.elems| then v.elems[i] else Str(""))
    ensures !v.Arr? ==> r == Blanks(n)
  {
    if v.Arr? then
      var kept := if |v.elems| < n then v.elems else v.elems[..n];
      (kept + Blanks(n))[..n]
    else Blanks(n)
  }

  /** `standardizeBuildData(b)`: reading a property of null or undefined throws, so `b` is neither. */
  function Standardize(b: Value): (r: Build)
    requires !Nullish(b)
    ensures r.Canonical()
  {
    Build(
      OrEmpty(Prop(b, "id")),
      OrEmpty(Prop(b, "championName")),
      Slots(Prop(b, "artifacts"), ArtifactSlots),
      Slots(Prop(b, "items"), ItemSlots),
      Slots(Prop(b, "powers"), PowerSlots),
      OrEmpty(Prop(b, "description")),
      OrEmpty(Prop(b, "creator")))
  }

  /** Falsy scalars become "" and truthy ones are kept; every slot array takes exactly its fixed length. */
  lemma StandardizeFields(b: Value)
    requires !Nullish(b)
    ensures var r := Standardize(b);
      && (Truthy(Prop(b, "id")) ==> r.id == Prop(b, "id"))
      && (!Truthy(Prop(b, "id")) ==> r.id == Str(""))
      && (Truthy(Prop(b, "championName")) ==> r.championName == Prop(b, "championName"))
      && (!Truthy(Prop(b, "championName")) ==> r.championName == Str(""))
      && (Truthy(Prop(b, "description")) ==> r.description == Prop(b, "description"))
      && (!Truthy(Prop(b, "description")) ==> r.description == Str(""))
      && (Truthy(Prop(b, "creator")) ==> r.creator == Prop(b, "creator"))
      && (!Truthy(Prop(b, "creator")) ==> r.creator == Str(""))
      && |r.artifacts| == 3 && |r.items| == 6 && |r.powers| == 6
  {
  }

  /** Reading the literal's fields back gives the record's fields. */
  lemma ObjectFields(b: Build)
    ensures Prop(b.Object(), "id") == b.id
    ensures Prop(b.Object(), "championName") == b.championName
    ensures Prop(b.Object(), "artifacts") == Arr(b.artifacts)
    ensures Prop(b.Object(), "items") == Arr(b.items)
    ensures Prop(b.Object(), "powers") == Arr(b.powers)
    ensures Prop(b.Object(), "description") == b.description
    ensures Prop(b.Object(), "creator") == b.creator
  {
    var fields := b.Object().fields;
    assert DistinctKeys(fields) by {
      assert Keys(fields) == CanonicalKeys;
    }
    GetAt(fields, 0);
    GetAt(fields, 1);
    GetAt(fields, 2);
    GetAt(fields, 3);
    GetAt(fields, 4);
    GetAt(fields, 5);
    GetAt(fields, 6);
  }

  /** Slots of an array that already has `n` elements are those elements. */
  lemma SlotsOfFull(xs: seq<Value>, n: nat)
    requires |xs| == n
    ensures Slots(Arr(xs), n) == xs
  {
  }

  /** A canonical build is a fixed point of the normaliser. */
  lemma {:induction false} StandardizeCanonical(b: Build)
    requires b.Canonical()
    ensures Standardize(b.Object()) == b
  {
    ObjectFields(b);
    SlotsOfFull(b.artifacts, ArtifactSlots);
    SlotsOfFull(b.items, ItemSlots);
    SlotsOfFull(b.powers, PowerSlots);
  }

  /** `standardizeBuildData` is idempotent. */
  lemma StandardizeIdempotent(b: Value)
    requires !Nullish(b)
    ensures Standardize(Standardize(b).Object()) == Standardize(b)
  {
    StandardizeCanonical(Standardize(b));
  }

  /**
    The request check of add, update and save-builds: a string id that is
    not empty, a champion name, and at least one artifact. The first two
    tests of the source (`!build`, `typeof build !== "object"`) never fire,
    since the normaliser always returns an object.
  */
  predicate Acceptable(b: Build)
    ensures Acceptable(b) ==> b.id.Str? && b.id.s != "" && Truthy(b.championName)
    ensures Acceptable(b) ==> exists a :: a in b.artifacts && Truthy(a)
  {
    && Truthy(b.id) && b.id.Str?
    && Truthy(b.championName)
    && exists i :: 0 <= i < |b.artifacts| && Truthy(b.artifacts[i])
  }

  /**
    What the check means for the raw request body: it passes exactly when
    the body carries a non-empty string id, a truthy champion name and an
    artifact array with a truthy value among its first three elements.
  */
  lemma {:induction false} AcceptableBody(body: Value)
    requires !Nullish(body)
    ensures Acceptable(Standardize(body)) <==>
      && Prop(body, "id").Str? && Prop(body, "id").s != ""
      && Truthy(Prop(body, "championName"))
      && Prop(body, "artifacts").Arr?
      && exists i :: 0 <= i < |Prop(body, "artifacts").elems| && i < ArtifactSlots && Truthy(Prop(body, "artifacts").elems[i])
  {
    var b := Standardize(body);
    var a := Prop(body, "artifacts");
    if a.Arr? {
      if exists i :: 0 <= i < |b.artifacts| && Truthy(b.artifacts[i]) {
        var i :| 0 <= i < |b.artifacts| && Truthy(b.artifacts[i]);
        assert i < |a.elems| && a.elems[i] == b.artifacts[i];
      }
      if exists i :: 0 <= i < |a.elems| && i < ArtifactSlots && Truthy(a.elems[i]) {
        var i :| 0 <= i < |a.elems| && i < ArtifactSlots && Truthy(a.elems[i]);
        assert b.artifacts[i] == a.elems[i];
      }
    } else {
      assert forall i :: 0 <= i < |b.artifacts| ==> b.artifacts[i] == Str("");
    }
  }
}
