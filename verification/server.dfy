/**
  The build endpoints of server.js over an abstract table of stored items.
  Each handler normalises and checks its request before it touches the
  table; the table keeps one item per id.
*/
module Server {
  import opened Wrappers
  import opened Seqs
  import opened JsValue
  import opened BuildRecord
  import opened Codec
  import Text

  const InvalidBuild := "Dữ liệu không hợp lệ: Build phải có id, championName và ít nhất một artifact"
  const NothingToUpdate := "Không có thuộc tính nào để cập nhật"
  const InvalidId := "Dữ liệu không hợp lệ: Yêu cầu id dạng chuỗi"
  const NotAnArray := "Dữ liệu không hợp lệ: Yêu cầu một mảng builds"
  const Added := "Đã thêm build thành công"
  const Updated := "Đã cập nhật build thành công"
  const Deleted := "Đã xóa build thành công"
  const Saved := "Đã lưu builds thành công"

  /** The JSON body of a reply: `{message}`, `{error: text}`, `{error: fault.message}`, or the loaded builds. */
  datatype Body = Message(text: string) | Error(text: string) | ErrorOf(fault: Fault) | Builds(list: seq<Value>)

  /** A reply sent by the handler, or a fault that escapes the handler without a reply. */
  datatype Response = Reply(status: int, body: Body) | Escaped(fault: Fault)

  datatype Route = LoadRoute | AddRoute | UpdateRoute | DeleteRoute | SaveRoute

  /**
    The catch blocks as written. Only the load handler's block reads
    nothing but the error; the other four read the request's `build`,
    `id` or `builds`, which are declared inside the `try` block and so are
    out of scope: the block itself throws a `ReferenceError` instead of
    replying, and the error leaves the handler (see `Settle` for where it
    goes next).
  */
  function CatchAsWritten(route: Route, f: Fault): (r: Response)
    ensures r.Reply? <==> route == LoadRoute
  {
    if route == LoadRoute then Reply(500, ErrorOf(f)) else Escaped(ReferenceError)
  }

  /** The catch block as intended: a 500 reply that carries the fault's message. */
  function Catch(f: Fault): (r: Response)
    ensures r.Reply? && r.status == 500 && r.body == ErrorOf(f)
  {
    Reply(500, ErrorOf(f))
  }

  /** The as-written catch blocks lose every fault of add, update, delete and save-builds; the intended one reports each. */
  lemma CatchFinding(f: Fault)
    ensures forall route :: route != LoadRoute ==> CatchAsWritten(route, f) == Escaped(ReferenceError) != Catch(f)
  {
  }

  /**
    What the server makes of a handler's outcome. A reply is sent as it is.
    A fault that escapes an async handler reaches the error middleware
    (server.js:319-323) only under Express 5, which then replies 500 with
    the error's message; under Express 4 the rejection is unhandled and no
    reply is sent. The Express major version is the parameter `express5`.
  */
  function Settle(r: Response, express5: bool): (out: Response)
    ensures r.Reply? ==> out == r
    ensures r.Escaped? ==> (out.Reply? <==> express5)
    ensures r.Escaped? && express5 ==> out == Reply(500, ErrorOf(r.fault))
    ensures r.Escaped? && !express5 ==> out == r
  {
    if r.Escaped? && express5 then Reply(500, ErrorOf(r.fault)) else r
  }

  /**
    Whatever the Express version, the as-written catch blocks of add,
    update, delete and save-builds never report the fault that occurred:
    under Express 5 the client gets a 500 carrying the `ReferenceError`,
    under Express 4 no reply at all. The load handler's catch is the
    intended one.
  */
  lemma SettledCatchFinding(route: Route, f: Fault, express5: bool)
    ensures route == LoadRoute ==> Settle(CatchAsWritten(route, f), express5) == Catch(f)
    ensures route != LoadRoute && express5 ==> Settle(CatchAsWritten(route, f), express5) == Reply(500, ErrorOf(ReferenceError))
    ensures route != LoadRoute && !express5 ==> !Settle(CatchAsWritten(route, f), express5).Reply?
    ensures route != LoadRoute && f != ReferenceError ==> Settle(CatchAsWritten(route, f), express5) != Catch(f)
  {
  }

  /** `{S: s}`. */
  predicate TaggedString(v: Value) {
    v.Obj? && |v.fields| == 1 && v.fields[0].0 == "S" && v.fields[0].1.Str?
  }

  /** `{S: s}` or `{L: [{S: s}, …]}`: the attribute values the store accepts. */
  predicate Tagged(v: Value) {
    || TaggedString(v)
    || (&& v.Obj? && |v.fields| == 1 && v.fields[0].0 == "L" && v.fields[0].1.Arr?
        && forall i :: 0 <= i < |v.fields[0].1.elems| ==> TaggedString(v.fields[0].1.elems[i]))
  }

  predicate TaggedItem(item: seq<(string, Value)>) {
    forall i :: 0 <= i < |item| ==> Tagged(item[i].1)
  }

  /** A row of the table: the canonical keys, the key's own id first, every attribute tagged. */
  ghost predicate StoredRow(key: string, row: seq<(string, Value)>) {
    Keys(row) == CanonicalKeys && row[0].1 == S(key) && TaggedItem(row)
  }

  /** Every stored row decodes without throwing. */
  lemma TaggedRowDecodes(row: seq<(string, Value)>)
    requires TaggedItem(row)
    ensures Decode(row, Element).Ok?
  {
    forall i | 0 <= i < |row| ensures DecodeAttr(row[i].1, Element).Ok? {
      var v := row[i].1;
      assert Tagged(v);
      if !TaggedString(v) {
        var xs := v.fields[0].1.elems;
        assert Keys(v.fields) == ["L"];
        assert forall j :: 0 <= j < |xs| ==> Element(xs[j]).Ok?;
      }
    }
  }

  lemma CanonicalKeysDistinct(item: seq<(string, Value)>)
    requires Keys(item) == CanonicalKeys
    ensures DistinctKeys(item)
  {
    forall i, j | 0 <= i < j < |item| ensures item[i].0 != item[j].0 {
      assert item[i].0 == CanonicalKeys[i] && item[j].0 == CanonicalKeys[j];
    }
  }

  /** Encoding a build that passed the request check gives a row with that build's id. */
  lemma EncodedRow(b: Build)
    requires Acceptable(b)
    ensures var item := Encode(b.Object().fields);
      Keys(item) == CanonicalKeys && item[0].1 == S(b.id.s)
  {
  }

  /** The non-id entries of an item, in order: what the update's `SET` list assigns. */
  function Assignments(item: seq<(string, Value)>): (r: seq<(string, Value)>)
    ensures forall e :: e in r <==> e in item && e.0 != "id"
  {
    Filter(item, NotId)
  }

  predicate NotId(e: (string, Value)) {
    e.0 != "id"
  }

  /** `#k`, the placeholder for the attribute name `k`. */
  function NameRef(k: string): string {
    "#" + k
  }

  /** `:k`, the placeholder for the value assigned to `k`. */
  function ValueRef(k: string): string {
    ":" + k
  }

  /** `#k = :k`. */
  function Clause(k: string): string {
    NameRef(k) + " = " + ValueRef(k)
  }

  /** One more entry of the item extends the assignments by that entry unless it is the id. */
  lemma AssignmentsSnoc(item: seq<(string, Value)>, i: nat)
    requires i < |item|
    ensures Assignments(item[..i + 1]) == Assignments(item[..i]) + (if item[i].0 != "id" then [item[i]] else [])
  {
    assert item[..i + 1] == item[..i] + [item[i]];
    FilterAppend(item[..i], [item[i]], NotId);
  }

  /**
    The loop that builds the update: for each entry except `id`, in the
    item's order, a clause `#k = :k`, the name `#k` for `k` and the value
    `:k`. The two maps are JavaScript objects, kept as their entries.
  */
  method UpdateExpression(item: seq<(string, Value)>) returns (clauses: seq<string>, names: seq<(string, string)>, values: seq<(string, Value)>)
    ensures |clauses| == |names| == |values| == |Assignments(item)|
    ensures forall j :: 0 <= j < |clauses| ==>
      && clauses[j] == Clause(Assignments(item)[j].0)
      && names[j] == (NameRef(Assignments(item)[j].0), Assignments(item)[j].0)
      && values[j] == (ValueRef(Assignments(item)[j].0), Assignments(item)[j].1)
  {
    clauses, names, values := [], [], [];
    ghost var done: seq<(string, Value)> := [];
    var i := 0;
    while i < |item|
      invariant 0 <= i <= |item|
      invariant done == Assignments(item[..i])
      invariant |clauses| == |names| == |values| == |done|
      invariant forall j :: 0 <= j < |done| ==>
        && clauses[j] == Clause(done[j].0)
        && names[j] == (NameRef(done[j].0), done[j].0)
        && values[j] == (ValueRef(done[j].0), done[j].1)
    {
      var key, value := item[i].0, item[i].1;
      AssignmentsSnoc(item, i);
      if key != "id" {
        clauses := clauses + [Clause(key)];
        names := names + [(NameRef(key), key)];
        values := values + [(ValueRef(key), value)];
        done := done + [(key, value)];
      }
      i := i + 1;
    }
    assert item[..i] == item;
  }

  /** An item with the canonical keys assigns every attribute but the first, `id`: six clauses. */
  lemma CanonicalAssignments(item: seq<(string, Value)>)
    requires Keys(item) == CanonicalKeys
    ensures Assignments(item) == item[1..] && |Assignments(item)| == 6
  {
    var p := NotId;
    assert item == [item[0]] + item[1..];
    assert item[0].0 == "id";
    assert forall e :: e in item[1..] ==> p(e) by {
      forall e | e in item[1..] ensures p(e) {
        var j :| 0 <= j < |item[1..]| && item[1..][j] == e;
        assert e.0 == CanonicalKeys[j + 1];
      }
    }
    FilterAppend([item[0]], item[1..], p);
    FilterAll(item[1..], p);
  }

  /** The store checks the assigned values; with a tagged id, they are tagged exactly when the whole item is. */
  lemma TaggedAssignments(item: seq<(string, Value)>)
    requires Keys(item) == CanonicalKeys && TaggedString(item[0].1)
    ensures TaggedItem(Assignments(item)) <==> TaggedItem(item)
  {
    CanonicalAssignments(item);
    if TaggedItem(item[1..]) {
      forall i | 0 <= i < |item| ensures Tagged(item[i].1) {
        if i > 0 { assert item[i] == item[1..][i - 1]; }
      }
    }
  }

  /**
    What the update handler relies on, for an item encoded from a checked
    build on a table of stored rows: six assignments, checked by the store
    exactly when the whole item would be, and, on the row the id names, the
    `SET` list yields the item itself.
  */
  lemma UpdateWrites(rows: map<string, seq<(string, Value)>>, key: string, item: seq<(string, Value)>)
    requires AllStored(rows) && Keys(item) == CanonicalKeys && item[0].1 == S(key)
    ensures |Assignments(item)| == 6
    ensures TaggedItem(Assignments(item)) <==> TaggedItem(item)
    ensures TaggedItem(item) ==> StoredRow(key, item)
    ensures key in rows ==> ApplySet(rows[key], Assignments(item)) == item
  {
    CanonicalAssignments(item);
    TaggedAssignments(item);
    if key in rows {
      UpdateOverwrites(key, rows[key], item);
    }
  }

  /** `SET k = v` on a stored row: the attribute is replaced where it is, or added at the end. */
  function SetAttr(row: seq<(string, Value)>, k: string, v: Value): seq<(string, Value)> {
    if row == [] then [(k, v)]
    else if row[0].0 == k then [(k, v)] + row[1..]
    else [row[0]] + SetAttr(row[1..], k, v)
  }

  /** The whole `SET` list, clause after clause. */
  function ApplySet(row: seq<(string, Value)>, assigns: seq<(string, Value)>): seq<(string, Value)>
    decreases |assigns|
  {
    if assigns == [] then row else ApplySet(SetAttr(row, assigns[0].0, assigns[0].1), assigns[1..])
  }

  /** In an object, setting an existing key replaces that one entry. */
  lemma {:induction false} SetAttrAt(row: seq<(string, Value)>, j: nat, v: Value)
    requires DistinctKeys(row) && j < |row|
    ensures SetAttr(row, row[j].0, v) == row[j := (row[j].0, v)]
  {
    var k := row[j].0;
    if j == 0 {
      assert SetAttr(row, k, v) == [(k, v)] + row[1..];
    } else {
      assert row[0].0 != k;
      DistinctKeysTail(row);
      assert row[1..][j - 1] == row[j];
      SetAttrAt(row[1..], j - 1, v);
      assert SetAttr(row, k, v) == [row[0]] + row[1..][j - 1 := (k, v)];
      assert row[j := (k, v)] == [row[0]] + row[1..][j - 1 := (k, v)];
    }
  }

  /** With the first `k` entries already equal to the item's, assigning the rest of the item makes the row the item. */
  lemma {:induction false} ApplySuffix(row: seq<(string, Value)>, item: seq<(string, Value)>, k: nat)
    requires Keys(row) == CanonicalKeys && Keys(item) == CanonicalKeys
    requires k <= |item| && forall j :: 0 <= j < k ==> row[j] == item[j]
    ensures ApplySet(row, item[k..]) == item
    decreases |item| - k
  {
    if k == |item| {
      assert row == item;
    } else {
      CanonicalKeysDistinct(row);
      assert row[k].0 == item[k].0;
      SetAttrAt(row, k, item[k].1);
      var row' := row[k := item[k]];
      assert Keys(row') == CanonicalKeys by {
        forall j | 0 <= j < |row'| ensures row'[j].0 == CanonicalKeys[j] {}
      }
      ApplySuffix(row', item, k + 1);
      assert item[k..][1..] == item[k + 1..];
    }
  }

  /**
    On a stored row, the update handler's `SET` list rewrites every
    attribute but the id, so the row becomes the new item: an update of an
    existing build has the same effect as a put.
  */
  lemma UpdateOverwrites(key: string, row: seq<(string, Value)>, item: seq<(string, Value)>)
    requires StoredRow(key, row) && Keys(item) == CanonicalKeys && item[0].1 == S(key)
    ensures ApplySet(row, Assignments(item)) == item
  {
    CanonicalAssignments(item);
    assert row[0] == item[0];
    ApplySuffix(row, item, 1);
  }

  /** What the add, update and save-builds handlers make of one request build before they write. */
  datatype Prepared =
    | Throws(fault: Fault)                               // the handler's `try` block throws
    | Invalid                                            // the request check fails
    | Ready(key: string, item: seq<(string, Value)>)     // the item to write under its id

  /**
    Normalise, check, encode: reading `id` of a nullish body throws; a
    build that fails the check is refused; an item the store would refuse
    (a value that is neither a string nor an array) makes the write throw.
  */
  function Prepare(v: Value): (r: Prepared)
    ensures r.Ready? ==> StoredRow(r.key, r.item)
  {
    if Nullish(v) then Throws(TypeError)
    else
      var b := Standardize(v);
      if !Acceptable(b) then Invalid
      else
        var item := Encode(b.Object().fields);
        EncodedRow(b);
        if TaggedItem(item) then Ready(b.id.s, item) else Throws(Rejected)
  }

  /**
    The outcomes of preparing a body: a nullish body throws a `TypeError`;
    otherwise the build is refused exactly when it fails the check, and
    written, under its own id, exactly when its item is made of tagged
    attribute values; the only other outcome is the store's refusal.
  */
  lemma PrepareCases(v: Value)
    ensures Nullish(v) <==> Prepare(v) == Throws(TypeError)
    ensures !Nullish(v) ==> (Prepare(v) == Invalid <==> !Acceptable(Standardize(v)))
    ensures Prepare(v).Ready? <==> !Nullish(v) && Acceptable(Standardize(v)) && TaggedItem(Encode(Standardize(v).Object().fields))
    ensures Prepare(v).Ready? ==> Prepare(v).key == Standardize(v).id.s && Prepare(v).item == Encode(Standardize(v).Object().fields)
    ensures Prepare(v).Throws? && !Nullish(v) ==> Prepare(v).fault == Rejected
  {
  }

  /**
    The elements of a save request, each prepared. The loop stops at the
    first fault, so which later elements it would have prepared makes no
    difference to what it writes.
  */
  function PrepareAll(builds: seq<Value>): (r: seq<Prepared>)
    ensures |r| == |builds|
    ensures forall i :: 0 <= i < |r| && r[i].Ready? ==> StoredRow(r[i].key, r[i].item)
  {
    seq(|builds|, i requires 0 <= i < |builds| => Prepare(builds[i]))
  }

  /**
    The save-builds loop over the prepared elements, in input order: skip
    the ones that failed the check, put the others. The first fault ends
    the loop; the puts already made stay.
  */
  function SaveAll(rows: map<string, seq<(string, Value)>>, steps: seq<Prepared>): (r: (map<string, seq<(string, Value)>>, Option<Fault>))
    ensures r.1 == None <==> forall i :: 0 <= i < |steps| ==> !steps[i].Throws?
    ensures r.1.Some? ==> exists i :: 0 <= i < |steps| && steps[i] == Throws(r.1.value)
    decreases |steps|
  {
    if steps == [] then (rows, None)
    else
      match steps[0]
      case Throws(f) => (rows, Some(f))
      case Invalid => SaveAll(rows, steps[1..])
      case Ready(key, item) => SaveAll(rows[key := item], steps[1..])
  }

  /** Saving never removes a row: every key stored before is stored after, whatever the request. */
  lemma {:induction false} SaveAllKeepsRows(rows: map<string, seq<(string, Value)>>, steps: seq<Prepared>)
    ensures rows.Keys <= SaveAll(rows, steps).0.Keys
    decreases |steps|
  {
    if steps != [] {
      match steps[0]
      case Throws(_) =>
      case Invalid => SaveAllKeepsRows(rows, steps[1..]);
      case Ready(key, item) => SaveAllKeepsRows(rows[key := item], steps[1..]);
    }
  }

  /** Skipping: dropping the elements that failed the check changes nothing. */
  lemma {:induction false} SaveAllSkipsInvalid(rows: map<string, seq<(string, Value)>>, steps: seq<Prepared>)
    ensures SaveAll(rows, steps) == SaveAll(rows, Filter(steps, (p: Prepared) => !p.Invalid?))
    decreases |steps|
  {
    var keep := (p: Prepared) => !p.Invalid?;
    if steps != [] {
      assert steps == [steps[0]] + steps[1..];
      FilterAppend([steps[0]], steps[1..], keep);
      match steps[0]
      case Throws(_) =>
      case Invalid => SaveAllSkipsInvalid(rows, steps[1..]);
      case Ready(key, item) => SaveAllSkipsInvalid(rows[key := item], steps[1..]);
    }
  }

  /** In input order: saving `a + c` is saving `a`, then `c` on the result, unless `a` throws. */
  lemma {:induction false} SaveAllInOrder(rows: map<string, seq<(string, Value)>>, a: seq<Prepared>, c: seq<Prepared>)
    requires SaveAll(rows, a).1 == None
    ensures SaveAll(rows, a + c) == SaveAll(SaveAll(rows, a).0, c)
    decreases |a|
  {
    if a != [] {
      assert (a + c)[0] == a[0] && (a + c)[1..] == a[1..] + c;
      match a[0]
      case Invalid => SaveAllInOrder(rows, a[1..], c);
      case Ready(key, item) => SaveAllInOrder(rows[key := item], a[1..], c);
    } else {
      assert a + c == c;
    }
  }

  /** A row whose key no element carries is left exactly as it was, whether the save completes or throws. */
  lemma {:induction false} SaveAllUntouched(rows: map<string, seq<(string, Value)>>, steps: seq<Prepared>, k: string)
    requires forall i :: 0 <= i < |steps| && steps[i].Ready? ==> steps[i].key != k
    ensures k in SaveAll(rows, steps).0 <==> k in rows
    ensures k in rows ==> SaveAll(rows, steps).0[k] == rows[k]
    decreases |steps|
  {
    if steps != [] {
      assert forall i :: 0 <= i < |steps[1..]| ==> steps[1..][i] == steps[i + 1];
      match steps[0]
      case Throws(_) =>
      case Invalid => SaveAllUntouched(rows, steps[1..], k);
      case Ready(key, item) => SaveAllUntouched(rows[key := item], steps[1..], k);
    }
  }

  /**
    A save that completes has stored every element that passed the check
    under its id (see `PrepareCases`); when no later element carries the
    same id, the row holds exactly that element's item.
  */
  lemma {:induction false} SaveAllStores(rows: map<string, seq<(string, Value)>>, steps: seq<Prepared>, i: nat)
    requires SaveAll(rows, steps).1 == None
    requires i < |steps| && steps[i].Ready?
    ensures steps[i].key in SaveAll(rows, steps).0
    ensures (forall j :: i < j < |steps| && steps[j].Ready? ==> steps[j].key != steps[i].key) ==>
      SaveAll(rows, steps).0[steps[i].key] == steps[i].item
    decreases |steps|
  {
    assert forall j :: 0 <= j < |steps[1..]| ==> steps[1..][j] == steps[j + 1];
    match steps[0]
    case Invalid =>
      SaveAllStores(rows, steps[1..], i - 1);
    case Ready(key, item) =>
      if i == 0 {
        SaveAllKeepsRows(rows[key := item], steps[1..]);
        if forall j :: 0 < j < |steps| && steps[j].Ready? ==> steps[j].key != key {
          SaveAllUntouched(rows[key := item], steps[1..], key);
        }
      } else {
        SaveAllStores(rows[key := item], steps[1..], i - 1);
      }
  }

  /** Every row of the table has the stored shape under its own key. */
  ghost predicate AllStored(rows: map<string, seq<(string, Value)>>) {
    forall k :: k in rows ==> StoredRow(k, rows[k])
  }

  /** Writing a row of the stored shape under its own key keeps every row of the table in that shape. */
  lemma AllStoredPut(rows: map<string, seq<(string, Value)>>, key: string, item: seq<(string, Value)>)
    requires AllStored(rows) && StoredRow(key, item)
    ensures AllStored(rows[key := item])
  {
  }

  /** Every row a save writes is the encoding of a checked build under its own id. */
  lemma {:induction false} SaveAllKeepsShape(rows: map<string, seq<(string, Value)>>, steps: seq<Prepared>)
    requires AllStored(rows)
    requires forall i :: 0 <= i < |steps| && steps[i].Ready? ==> StoredRow(steps[i].key, steps[i].item)
    ensures AllStored(SaveAll(rows, steps).0)
    decreases |steps|
  {
    if steps != [] {
      assert forall i :: 0 <= i < |steps[1..]| ==> steps[1..][i] == steps[i + 1];
      match steps[0]
      case Throws(_) =>
      case Invalid => SaveAllKeepsShape(rows, steps[1..]);
      case Ready(key, item) =>
        AllStoredPut(rows, key, item);
        SaveAllKeepsShape(rows[key := item], steps[1..]);
    }
  }

  /** The builds a scan returns, decoded one by one. */
  function DecodeAll(rows: seq<seq<(string, Value)>>): (r: Result<seq<Value>>)
    ensures r.Ok? ==> |r.value| == |rows|
  {
    if rows == [] then Ok([])
    else
      match DecodeAll(rows[..|rows| - 1])
      case Fail(f) => Fail(f)
      case Ok(done) =>
        match Decode(rows[|rows| - 1], Element)
        case Fail(f) => Fail(f)
        case Ok(b) => Ok(done + [b.Object()])
  }

  lemma {:induction false} DecodeAllAt(rows: seq<seq<(string, Value)>>, i: nat)
    requires DecodeAll(rows).Ok? && i < |rows|
    ensures Decode(rows[i], Element).Ok? && DecodeAll(rows).value[i] == Decode(rows[i], Element).value.Object()
  {
    if i < |rows| - 1 {
      assert rows[..|rows| - 1][i] == rows[i];
      DecodeAllAt(rows[..|rows| - 1], i);
    }
  }

  /** Decoding one more row appends its build. */
  lemma DecodeAllSnoc(rows: seq<seq<(string, Value)>>, i: nat)
    requires i < |rows| && DecodeAll(rows[..i]).Ok? && Decode(rows[i], Element).Ok?
    ensures DecodeAll(rows[..i + 1]) == Ok(DecodeAll(rows[..i]).value + [Decode(rows[i], Element).value.Object()])
  {
    assert rows[..i + 1][..i] == rows[..i];
  }

  lemma {:induction false} TaggedRowsDecode(rows: seq<seq<(string, Value)>>)
    requires forall i :: 0 <= i < |rows| ==> TaggedItem(rows[i])
    ensures DecodeAll(rows).Ok?
  {
    if rows != [] {
      TaggedRowsDecode(rows[..|rows| - 1]);
      TaggedRowDecodes(rows[|rows| - 1]);
    }
  }

  /** Once a prefix of the scan fails to decode, the whole scan fails with the same fault. */
  lemma {:induction false} DecodeAllFailExtends(rows: seq<seq<(string, Value)>>, n: nat)
    requires n <= |rows| && DecodeAll(rows[..n]).Fail?
    ensures DecodeAll(rows) == DecodeAll(rows[..n])
    decreases |rows| - n
  {
    if n < |rows| {
      assert rows[..n + 1][..n] == rows[..n];
      DecodeAllFailExtends(rows, n + 1);
    } else {
      assert rows[..n] == rows;
    }
  }

  /** A row that fails to decode fails the scan up to it. */
  lemma DecodeAllSnocFail(rows: seq<seq<(string, Value)>>, i: nat)
    requires i < |rows| && DecodeAll(rows[..i]).Ok? && Decode(rows[i], Element).Fail?
    ensures DecodeAll(rows[..i + 1]) == Fail(Decode(rows[i], Element).fault)
  {
    assert rows[..i + 1][..i] == rows[..i];
  }

  /** The rows of the table under the keys of `order`, in that order. */
  function ScanOf(rows: map<string, seq<(string, Value)>>, order: seq<string>): (r: seq<seq<(string, Value)>>)
    requires forall i :: 0 <= i < |order| ==> order[i] in rows
    ensures |r| == |order| && forall i :: 0 <= i < |order| ==> r[i] == rows[order[i]]
  {
    seq(|order|, i requires 0 <= i < |order| => rows[order[i]])
  }

  /**
    A scan that returns every stored row once, as stored, decodes without a
    fault: the load handler then replies 200 with one normalised build per
    row of the table.
  */
  lemma StoredScanDecodes(rows: map<string, seq<(string, Value)>>, order: seq<string>)
    requires AllStored(rows)
    requires NoDup(order) && forall k :: k in rows <==> k in order
    ensures var d := DecodeAll(ScanOf(rows, order));
      && d.Ok? && |d.value| == |rows|
      && forall i :: 0 <= i < |order| ==> Decode(rows[order[i]], Element).Ok? && d.value[i] == Decode(rows[order[i]], Element).value.Object()
  {
    var scan := ScanOf(rows, order);
    TaggedRowsDecode(scan);
    forall i | 0 <= i < |order|
      ensures Decode(rows[order[i]], Element).Ok? && DecodeAll(scan).value[i] == Decode(rows[order[i]], Element).value.Object()
    {
      DecodeAllAt(scan, i);
    }
    NoDupCard(order);
    assert (set x | x in order) == rows.Keys;
  }

  /** The table of builds, one item per id. */
  class Table {
    var rows: map<string, seq<(string, Value)>>

    ghost predicate Valid()
      reads this
    {
      AllStored(rows)
    }

    constructor ()
      ensures Valid() && rows == map[]
    {
      rows := map[];
    }

    /** `PutItem`: stores the item under its id, replacing any row there; refuses an untagged item. */
    method Put(key: string, item: seq<(string, Value)>) returns (fault: Option<Fault>)
      modifies this
      ensures fault == None <==> TaggedItem(item)
      ensures fault == None ==> rows == old(rows)[key := item]
      ensures fault != None ==> fault == Some(Rejected) && rows == old(rows)
    {
      if TaggedItem(item) {
        rows := rows[key := item];
        fault := None;
      } else {
        fault := Some(Rejected);
      }
    }

    /**
      `UpdateCommand` with `ConditionExpression: "attribute_exists(id)"`:
      refuses untagged values, fails when no row has the key, and otherwise
      applies the `SET` list to the row.
    */
    method SetIfExists(key: string, assigns: seq<(string, Value)>) returns (fault: Option<Fault>)
      modifies this
      ensures !TaggedItem(assigns) ==> fault == Some(Rejected) && rows == old(rows)
      ensures TaggedItem(assigns) && key !in old(rows) ==> fault == Some(ConditionFailed) && rows == old(rows)
      ensures TaggedItem(assigns) && key in old(rows) ==> fault == None && rows == old(rows)[key := ApplySet(old(rows)[key], assigns)]
    {
      if !TaggedItem(assigns) {
        return Some(Rejected);
      }
      if key !in rows {
        return Some(ConditionFailed);
      }
      rows := rows[key := ApplySet(rows[key], assigns)];
      fault := None;
    }

    /**
      `GET /api/load-builds`: the scan's items (none when its reply has no
      `Items`), each decoded and normalised, in the scan's order. The first
      item that does not decode ends the handler in its catch block.
    */
    method Load(scanned: Option<seq<seq<(string, Value)>>>) returns (resp: Response)
      ensures var d := DecodeAll(scanned.GetOr([]));
        && (d.Ok? ==> resp == Reply(200, Builds(d.value)))
        && (d.Fail? ==> resp == Catch(d.fault) == CatchAsWritten(LoadRoute, d.fault))
    {
      var items := if scanned.Some? then scanned.value else [];
      var list: seq<Value> := [];
      var i := 0;
      while i < |items|
        invariant 0 <= i <= |items|
        invariant DecodeAll(items[..i]) == Ok(list)
      {
        var decoded := ConvertFromDynamoDB(items[i], Element);
        if decoded.Fail? {
          DecodeAllSnocFail(items, i);
          DecodeAllFailExtends(items, i + 1);
          return Catch(decoded.fault);
        }
        DecodeAllSnoc(items, i);
        list := list + [decoded.value.Object()];
        i := i + 1;
      }
      assert items[..i] == items;
      resp := Reply(200, Builds(list));
    }

    /** `POST /api/add-builds`: check, encode, put (which overwrites an existing row). */
    method Add(body: Value) returns (resp: Response)
      requires Valid()
      modifies this
      ensures Valid()
      ensures match Prepare(body)
        case Throws(f) => resp == Catch(f) && rows == old(rows)
        case Invalid => resp == Reply(400, Error(InvalidBuild)) && rows == old(rows)
        case Ready(key, item) => resp == Reply(201, Message(Added)) && rows == old(rows)[key := item]
    {
      PrepareCases(body);
      if Nullish(body) {
        return Catch(TypeError);
      }
      var build := Standardize(body);
      if !Acceptable(build) {
        return Reply(400, Error(InvalidBuild));
      }
      var item := ConvertToDynamoDB(build.Object().fields);
      if TaggedItem(item) {
        AllStoredPut(rows, build.id.s, item);
      }
      var fault := Put(build.id.s, item);
      if fault.Some? {
        return Catch(fault.value);
      }
      resp := Reply(201, Message(Added));
    }

    /**
      `PUT /api/update-builds`: check, encode, build the `SET` list, then
      a write conditioned on `attribute_exists(id)`: a missing row is a
      fault, an existing one is rewritten.
    */
    method Update(body: Value) returns (resp: Response)
      requires Valid()
      modifies this
      ensures Valid()
      ensures match Prepare(body)
        case Throws(f) => resp == Catch(f) && rows == old(rows)
        case Invalid => resp == Reply(400, Error(InvalidBuild)) && rows == old(rows)
        case Ready(key, item) =>
          && (key !in old(rows) ==> resp == Catch(ConditionFailed) && rows == old(rows))
          && (key in old(rows) ==> resp == Reply(200, Message(Updated)) && rows == old(rows)[key := item])
    {
      PrepareCases(body);
      if Nullish(body) {
        return Catch(TypeError);
      }
      var build := Standardize(body);
      if !Acceptable(build) {
        return Reply(400, Error(InvalidBuild));
      }
      var item := ConvertToDynamoDB(build.Object().fields);
      EncodedRow(build);
      resp := UpdateItem(build.id.s, item);
    }

    /**
      The rest of the update handler, on the encoded item: build the `SET`
      list from every attribute but `id`, then send the conditional write.
    */
    method UpdateItem(key: string, item: seq<(string, Value)>) returns (resp: Response)
      requires Valid() && Keys(item) == CanonicalKeys && item[0].1 == S(key)
      modifies this
      ensures Valid()
      ensures !TaggedItem(item) ==> resp == Catch(Rejected) && rows == old(rows)
      ensures TaggedItem(item) && key !in old(rows) ==> resp == Catch(ConditionFailed) && rows == old(rows)
      ensures TaggedItem(item) && key in old(rows) ==> resp == Reply(200, Message(Updated)) && rows == old(rows)[key := item]
    {
      var clauses, names, values := UpdateExpression(item);
      UpdateWrites(rows, key, item);
      // The "nothing to update" reply is unreachable: the item has six attributes besides its id.
      assert |clauses| == 6;
      if TaggedItem(item) {
        AllStoredPut(rows, key, item);
      }
      var fault := SetIfExists(key, Assignments(item));
      if fault.Some? {
        return Catch(fault.value);
      }
      resp := Reply(200, Message(Updated));
    }

    /** `DELETE /api/delete-builds`: check the id, then delete unconditionally (a missing row is not an error). */
    method Delete(body: Value) returns (resp: Response)
      requires Valid()
      modifies this
      ensures Valid()
      ensures Nullish(body) ==> resp == Catch(TypeError) && rows == old(rows)
      ensures !Nullish(body) && !(Prop(body, "id").Str? && Prop(body, "id").s != "") ==>
        resp == Reply(400, Error(InvalidId)) && rows == old(rows)
      ensures !Nullish(body) && Prop(body, "id").Str? && Prop(body, "id").s != "" ==>
        resp == Reply(200, Message(Deleted)) && rows == old(rows) - {Prop(body, "id").s}
    {
      if Nullish(body) {
        return Catch(TypeError);
      }
      var id := Prop(body, "id");
      if !Truthy(id) || !id.Str? {
        return Reply(400, Error(InvalidId));
      }
      rows := rows - {id.s};
      resp := Reply(200, Message(Deleted));
    }

    /** `POST /api/save-builds`: an array is required; then the put loop. */
    method SaveBuilds(body: Value) returns (resp: Response)
      requires Valid()
      modifies this
      ensures Valid()
      ensures !body.Arr? ==> resp == Reply(400, Error(NotAnArray)) && rows == old(rows)
      ensures body.Arr? ==> rows == SaveAll(old(rows), PrepareAll(body.elems)).0
      ensures body.Arr? && SaveAll(old(rows), PrepareAll(body.elems)).1 == None ==> resp == Reply(201, Message(Saved))
      ensures body.Arr? && SaveAll(old(rows), PrepareAll(body.elems)).1.Some? ==>
        resp == Catch(SaveAll(old(rows), PrepareAll(body.elems)).1.value)
    {
      if !body.Arr? {
        return Reply(400, Error(NotAnArray));
      }
      var builds := body.elems;
      ghost var steps := PrepareAll(builds);
      var i := 0;
      while i < |builds|
        invariant 0 <= i <= |builds|
        invariant Valid()
        invariant SaveAll(old(rows), steps) == SaveAll(rows, steps[i..])
      {
        var element := builds[i];
        PrepareCases(element);
        assert steps[i..][0] == Prepare(element) && steps[i..][1..] == steps[i + 1..];
        if Nullish(element) {
          return Catch(TypeError);
        }
        var build := Standardize(element);
        if !Acceptable(build) {
          i := i + 1;
          continue;
        }
        var item := ConvertToDynamoDB(build.Object().fields);
        if TaggedItem(item) {
          AllStoredPut(rows, build.id.s, item);
        }
        var fault := Put(build.id.s, item);
        if fault.Some? {
          return Catch(fault.value);
        }
        i := i + 1;
      }
      resp := Reply(201, Message(Saved));
    }
  }
}
