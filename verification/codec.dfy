/**
  The store codec of server.js: `convertToDynamoDB` turns a build into an
  item of tagged attribute values (`{S: string}`, `{L: [...]}`), and
  `convertFromDynamoDB` reads such an item back and normalises it.
*/
module Codec {
  import opened JsValue
  import opened BuildRecord

  /** The string attribute `{ S: s }`. */
  function S(s: string): (r: Value)
    ensures r.Obj? && Keys(r.fields) == ["S"]
  {
    Obj([("S", Str(s))])
  }

  /** `{ L: xs.map(x => ({ S: String(x) })) }`. */
  function L(xs: seq<Value>): (r: Value)
    ensures r.Obj? && Keys(r.fields) == ["L"]
  {
    Obj([("L", Arr(seq(|xs|, i requires 0 <= i < |xs| => S(ToJsString(xs[i])))))])
  }

  /** One attribute as `convertToDynamoDB` writes it: arrays become lists of strings, strings are tagged, anything else passes through. */
  function EncodeAttr(v: Value): (r: Value)
    ensures v.Arr? ==> r == L(v.elems)
    ensures v.Str? ==> r == S(v.s)
    ensures !v.Arr? && !v.Str? ==> r == v
  {
    match v
    case Arr(xs) => L(xs)
    case Str(s) => S(s)
    case _ => v
  }

  /** The item `convertToDynamoDB` builds: the same keys in the same order, each value encoded. */
  function Encode(fields: seq<(string, Value)>): (r: seq<(string, Value)>)
    ensures Keys(r) == Keys(fields)
    ensures forall i :: 0 <= i < |r| ==> r[i].1 == EncodeAttr(fields[i].1)
  {
    seq(|fields|, i requires 0 <= i < |fields| => (fields[i].0, EncodeAttr(fields[i].1)))
  }

  /**
    `convertToDynamoDB(data)`, entry by entry. The keys of an object are
    distinct, so each assignment to `result[key]` adds a new key at the end.
  */
  method ConvertToDynamoDB(data: seq<(string, Value)>) returns (result: seq<(string, Value)>)
    ensures result == Encode(data)
  {
    result := [];
    var i := 0;
    while i < |data|
      invariant 0 <= i <= |data|
      invariant result == Encode(data[..i])
    {
      var key, value := data[i].0, data[i].1;
      var attr;
      if value.Arr? {
        attr := L(value.elems);
      } else if value.Str? {
        attr := S(value.s);
      } else {
        attr := value;
      }
      result := result + [(key, attr)];
      i := i + 1;
    }
    assert data[..i] == data;
  }

  /** `v.S ? v.S : v`: an element of a list, decoded as the source writes it. */
  function ElementAsWritten(v: Value): (r: Result<Value>)
    ensures r.Fail? <==> Nullish(v)
    ensures !Nullish(v) && Truthy(Prop(v, "S")) ==> r == Ok(Prop(v, "S"))
    ensures !Nullish(v) && !Truthy(Prop(v, "S")) ==> r == Ok(v)
  {
    if Nullish(v) then Fail(TypeError)
    else if Truthy(Prop(v, "S")) then Ok(Prop(v, "S"))
    else Ok(v)
  }

  /** `v.S !== undefined ? v.S : v`: the element decoding evidently intended, which keeps an empty string. */
  function Element(v: Value): (r: Result<Value>)
    ensures r.Fail? <==> Nullish(v)
    ensures forall s :: v == S(s) ==> r == Ok(Str(s))
  {
    if Nullish(v) then Fail(TypeError)
    else if Prop(v, "S") != Undefined then Ok(Prop(v, "S"))
    else Ok(v)
  }

  /** `xs.map(elem)`: fails with the first failure, otherwise maps every element. */
  function DecodeList(xs: seq<Value>, elem: Value -> Result<Value>): (r: Result<seq<Value>>)
    ensures r.Fail? <==> exists i :: 0 <= i < |xs| && elem(xs[i]).Fail?
    ensures r.Ok? ==> |r.value| == |xs| && forall i :: 0 <= i < |xs| ==> elem(xs[i]) == Ok(r.value[i])
  {
    if xs == [] then Ok([])
    else
      match elem(xs[0])
      case Fail(f) => Fail(f)
      case Ok(y) =>
        var rest := DecodeList(xs[1..], elem);
        assert forall i :: 1 <= i < |xs| ==> xs[i] == xs[1..][i - 1];
        match rest
        case Fail(f) => Fail(f)
        case Ok(ys) => Ok([y] + ys)
  }

  /**
    One attribute as `convertFromDynamoDB` reads it: `{S}` gives its string,
    `{L}` its decoded list, anything else is kept. `"S" in v` throws on a
    primitive, and `v.L.map` throws when `L` is not an array.
  */
  function DecodeAttr(v: Value, elem: Value -> Result<Value>): (r: Result<Value>)
    ensures !(v.Obj? || v.Arr?) ==> r == Fail(TypeError)
    ensures v.Obj? && "S" in Keys(v.fields) ==> r == Ok(Get(v.fields, "S"))
    ensures v.Arr? ==> r == Ok(v)
  {
    match In("S", v)
    case Fail(f) => Fail(f)
    case Ok(hasS) =>
      if hasS then Ok(Prop(v, "S"))
      else if v.Obj? && "L" in Keys(v.fields) then
        var l := Prop(v, "L");
        if l.Arr? then
          match DecodeList(l.elems, elem)
          case Fail(f) => Fail(f)
          case Ok(ys) => Ok(Arr(ys))
        else Fail(TypeError)
      else Ok(v)
  }

  /** The entries of `result`, built key by key; the first attribute that throws ends the loop. */
  function DecodeFields(fields: seq<(string, Value)>, elem: Value -> Result<Value>): (r: Result<seq<(string, Value)>>)
    ensures r.Ok? ==> Keys(r.value) == Keys(fields)
    ensures r.Ok? ==> forall i :: 0 <= i < |fields| ==> DecodeAttr(fields[i].1, elem) == Ok(r.value[i].1)
    ensures r.Fail? <==> exists i :: 0 <= i < |fields| && DecodeAttr(fields[i].1, elem).Fail?
  {
    if fields == [] then Ok([])
    else
      var init, last := fields[..|fields| - 1], fields[|fields| - 1];
      assert forall i :: 0 <= i < |init| ==> fields[i] == init[i];
      match DecodeFields(init, elem)
      case Fail(f) => Fail(f)
      case Ok(done) =>
        match DecodeAttr(last.1, elem)
        case Fail(f) => Fail(f)
        case Ok(v) =>
          assert Keys(done + [(last.0, v)]) == Keys(init) + [last.0];
          assert Keys(fields) == Keys(init) + [last.0];
          Ok(done + [(last.0, v)])
  }

  /** `convertFromDynamoDB(item)` with a given element decoding: decode every attribute, then normalise. */
  function Decode(item: seq<(string, Value)>, elem: Value -> Result<Value>): (r: Result<Build>)
    ensures r.Ok? ==> r.value.Canonical()
  {
    match DecodeFields(item, elem)
    case Fail(f) => Fail(f)
    case Ok(fields) => Ok(Standardize(Obj(fields)))
  }

  /**
    `convertFromDynamoDB(item)`, entry by entry, with a given element
    decoding: `ElementAsWritten` is the code as written, `Element` the
    intended one.
  */
  method ConvertFromDynamoDB(item: seq<(string, Value)>, elem: Value -> Result<Value>) returns (r: Result<Build>)
    ensures r == Decode(item, elem)
  {
    var result: seq<(string, Value)> := [];
    var i := 0;
    while i < |item|
      invariant 0 <= i <= |item|
      invariant DecodeFields(item[..i], elem) == Ok(result)
    {
      var key, value := item[i].0, item[i].1;
      assert item[..i + 1][..i] == item[..i];
      var decoded := DecodeAttr(value, elem);
      if decoded.Fail? {
        assert DecodeFields(item[..i + 1], elem).Fail?;
        DecodeFieldsFailExtends(item, i + 1, elem);
        return Fail(decoded.fault);
      }
      result := result + [(key, decoded.value)];
      i := i + 1;
    }
    assert item[..i] == item;
    r := Ok(Standardize(Obj(result)));
  }

  /** Once a prefix of the entries throws, decoding the whole item throws the same fault. */
  lemma {:induction false} DecodeFieldsFailExtends(item: seq<(string, Value)>, n: nat, elem: Value -> Result<Value>)
    requires n <= |item| && DecodeFields(item[..n], elem).Fail?
    ensures DecodeFields(item, elem) == DecodeFields(item[..n], elem)
    decreases |item| - n
  {
    if n < |item| {
      assert item[..n + 1][..n] == item[..n];
      DecodeFieldsFailExtends(item, n + 1, elem);
    } else {
      assert item[..n] == item;
    }
  }

  /** The builds the client sends: every scalar and every slot is a string. */
  predicate ClientShaped(b: Build) {
    && b.Canonical()
    && b.id.Str? && b.championName.Str? && b.description.Str? && b.creator.Str?
    && AllStrings(b.artifacts) && AllStrings(b.items) && AllStrings(b.powers)
  }

  predicate AllStrings(xs: seq<Value>) {
    forall i :: 0 <= i < |xs| ==> xs[i].Str?
  }

  /** Some slot of the build holds the empty string. */
  predicate HasEmptySlot(b: Build) {
    Str("") in b.artifacts || Str("") in b.items || Str("") in b.powers
  }

  /** Decoding an encoded item attribute by attribute. */
  lemma {:induction false} FieldsRoundTrip(fields: seq<(string, Value)>, decoded: seq<(string, Value)>, elem: Value -> Result<Value>)
    requires Keys(decoded) == Keys(fields)
    requires forall i :: 0 <= i < |fields| ==> DecodeAttr(EncodeAttr(fields[i].1), elem) == Ok(decoded[i].1)
    ensures DecodeFields(Encode(fields), elem) == Ok(decoded)
  {
    var enc := Encode(fields);
    if fields != [] {
      var n := |fields| - 1;
      assert Encode(fields)[..n] == Encode(fields[..n]);
      assert Keys(decoded[..n]) == Keys(fields[..n]);
      FieldsRoundTrip(fields[..n], decoded[..n], elem);
      assert decoded == decoded[..n] + [(decoded[n].0, decoded[n].1)];
    }
  }

  /**
    Encoding then decoding a client-shaped build gives it back, with each
    slot replaced by what the element decoding makes of `{S: slot}`.
  */
  lemma BuildRoundTrip(b: Build, elem: Value -> Result<Value>, a: seq<Value>, it: seq<Value>, p: seq<Value>)
    requires ClientShaped(b)
    requires |a| == |b.artifacts| && |it| == |b.items| && |p| == |b.powers|
    requires forall i :: 0 <= i < |a| ==> elem(S(b.artifacts[i].s)) == Ok(a[i])
    requires forall i :: 0 <= i < |it| ==> elem(S(b.items[i].s)) == Ok(it[i])
    requires forall i :: 0 <= i < |p| ==> elem(S(b.powers[i].s)) == Ok(p[i])
    ensures Decode(Encode(b.Object().fields), elem) == Ok(Build(b.id, b.championName, a, it, p, b.description, b.creator))
  {
    var b' := Build(b.id, b.championName, a, it, p, b.description, b.creator);
    var fields, decoded := b.Object().fields, b'.Object().fields;
    SlotsDecode(b.artifacts, a, elem);
    SlotsDecode(b.items, it, elem);
    SlotsDecode(b.powers, p, elem);
    forall i | 0 <= i < |fields| ensures DecodeAttr(EncodeAttr(fields[i].1), elem) == Ok(decoded[i].1) {
    }
    FieldsRoundTrip(fields, decoded, elem);
    StandardizeCanonical(b');
  }

  /** An encoded list of strings decodes to what the element decoding makes of each `{S: x}`. */
  lemma SlotsDecode(xs: seq<Value>, ys: seq<Value>, elem: Value -> Result<Value>)
    requires AllStrings(xs) && |ys| == |xs|
    requires forall i :: 0 <= i < |ys| ==> elem(S(xs[i].s)) == Ok(ys[i])
    ensures DecodeAttr(L(xs), elem) == Ok(Arr(ys))
  {
    var enc := L(xs).fields[0].1.elems;
    assert forall i :: 0 <= i < |xs| ==> enc[i] == S(xs[i].s);
    var r := DecodeList(enc, elem);
    assert r.Ok?;
    assert r.value == ys;
  }

  /** With the intended element decoding, every client-shaped build survives the store. */
  lemma RoundTrip(b: Build)
    requires ClientShaped(b)
    ensures Decode(Encode(b.Object().fields), Element) == Ok(b)
  {
    BuildRoundTrip(b, Element, b.artifacts, b.items, b.powers);
  }

  /** What the source's element decoding makes of `{S: s}`: `s` when it is not empty, the wrapper itself when it is. */
  function AsWrittenSlot(x: Value): Value {
    if x == Str("") then S("") else x
  }

  /** The slots as the source's element decoding returns them: unchanged exactly when none is empty. */
  function AsWrittenSlots(xs: seq<Value>): (r: seq<Value>)
    requires AllStrings(xs)
    ensures |r| == |xs|
    ensures forall i :: 0 <= i < |xs| ==> ElementAsWritten(S(xs[i].s)) == Ok(r[i])
    ensures r == xs <==> Str("") !in xs
  {
    var r := seq(|xs|, i requires 0 <= i < |xs| => AsWrittenSlot(xs[i]));
    assert forall i :: 0 <= i < |xs| ==> Prop(S(xs[i].s), "S") == xs[i];
    assert Str("") in xs ==> r != xs by {
      if Str("") in xs {
        var i :| 0 <= i < |xs| && xs[i] == Str("");
        assert r[i] != xs[i];
      }
    }
    r
  }

  /**
    As written, a client-shaped build survives the store exactly when none
    of its slots is empty; an empty slot comes back as the object `{S: ""}`.
  */
  lemma {:induction false} AsWrittenRoundTrip(b: Build)
    requires ClientShaped(b)
    ensures Decode(Encode(b.Object().fields), ElementAsWritten) == Ok(b) <==> !HasEmptySlot(b)
  {
    var a, it, p := AsWrittenSlots(b.artifacts), AsWrittenSlots(b.items), AsWrittenSlots(b.powers);
    BuildRoundTrip(b, ElementAsWritten, a, it, p);
  }

  /** A concrete build with one chosen artifact: after the store, its two empty artifact slots are objects, not strings. */
  lemma AsWrittenEmptySlotExample()
    ensures var b := Build(Str("b1"), Str("Ahri"), [Str("Crown"), Str(""), Str("")],
                           [Str(""), Str(""), Str(""), Str(""), Str(""), Str("")],
                           [Str(""), Str(""), Str(""), Str(""), Str(""), Str("")],
                           Str(""), Str(""));
      && ClientShaped(b)
      && Decode(Encode(b.Object().fields), ElementAsWritten).Ok?
      && Decode(Encode(b.Object().fields), ElementAsWritten).value.artifacts[1] == S("")
  {
    var b := Build(Str("b1"), Str("Ahri"), [Str("Crown"), Str(""), Str("")],
                   [Str(""), Str(""), Str(""), Str(""), Str(""), Str("")],
                   [Str(""), Str(""), Str(""), Str(""), Str(""), Str("")],
                   Str(""), Str(""));
    var a, it := AsWrittenSlots(b.artifacts), AsWrittenSlots(b.items);
    BuildRoundTrip(b, ElementAsWritten, a, it, it);
    assert a[1] == S("");
  }
}
