/**
 * How loss records are stored between runs: each record as the JSON object
 * `dataclasses.asdict` gives, read back with `Loss(**x)`, and the baseline
 * as one JSON object from country to its list of records. The JSON text
 * itself (`json.dumps` / `json.loads`) is not modelled: the store holds
 * JSON values.
 */
module Records {
  import opened Wrappers
  import opened Parser

  /** A JSON value as `json.loads` returns it (floating-point numbers are
      not modelled). Object keys are strings and carry no order here. */
  datatype Json =
    | JNull
    | JBool(b: bool)
    | JInt(i: int)
    | JStr(s: string)
    | JList(items: seq<Json>)
    | JObject(fields: map<string, Json>)

  /** Why stored data cannot be turned back into records. */
  datatype LoadError =
    | NotAMapping              // `Loss(**x)` or `last_data[...]` on something that is not a dict
    | WrongFields              // a missing or unexpected keyword argument of `Loss(**x)`
    | Unhashable               // `set(...)` hashing a record that holds a list or a dict
    | NotIterable              // `map(..., v)` over a number, a boolean or null
    | MissingCountry(country: string)  // `last_data[country]` raising KeyError

  /** The dataclass field names, as `asdict` spells them. */
  const FieldNames: set<string> := {"type", "status", "number", "link"}

  /** `dataclasses.asdict(loss)`. */
  function AsDict(l: Loss): (j: Json)
    ensures j.JObject? && j.fields.Keys == FieldNames
  {
    JObject(map["type" := JStr(l.kind), "status" := JStr(l.status),
                "number" := JInt(l.number), "link" := JStr(l.link)])
  }

  /** A JSON value Python can hash: anything but a list or a dict. */
  predicate Hashable(v: Json)
  {
    !v.JList? && !v.JObject?
  }

  /** Python's `v == n` for a stored value and an integer: an int of the
      same value, or a boolean (`True == 1`, `False == 0`). */
  predicate EqualsInt(v: Json, n: int)
  {
    (v.JInt? && v.i == n) || (v.JBool? && n == if v.b then 1 else 0)
  }

  /** Python's equality between the record `Loss(**f)` and `l`, field by
      field: the dataclass compares the tuples of its fields. */
  predicate FieldsEqual(f: map<string, Json>, l: Loss)
    requires FieldNames <= f.Keys
  {
    && f["type"] == JStr(l.kind)
    && f["status"] == JStr(l.status)
    && EqualsInt(f["number"], l.number)
    && f["link"] == JStr(l.link)
  }

  /** `Loss(**x)` followed by the hash `set(...)` takes of it. The dataclass
      checks the keyword names but not the types of the values, so a record
      with any hashable field values is built; it is given as the parsed
      record it equals, or `None` when no parsed record can equal it (a
      field of the wrong type, such as the number `"4"` or a `null`). */
  function FromDict(j: Json): (r: Result<Option<Loss>, LoadError>)
    ensures r.Ok? ==> j.JObject? && j.fields.Keys == FieldNames
    ensures r.Ok? && r.value.Some? ==> FieldsEqual(j.fields, r.value.value)
  {
    if !j.JObject? then Err(NotAMapping)
    else if j.fields.Keys != FieldNames then Err(WrongFields)
    else
      var f := j.fields;
      if !Hashable(f["type"]) || !Hashable(f["status"]) || !Hashable(f["number"]) || !Hashable(f["link"])
      then Err(Unhashable)
      else if f["type"].JStr? && f["status"].JStr? && f["link"].JStr? && (f["number"].JInt? || f["number"].JBool?)
      then Ok(Some(Loss(f["type"].s, f["status"].s,
                        if f["number"].JInt? then f["number"].i else if f["number"].b then 1 else 0,
                        f["link"].s)))
      else Ok(None)
  }

  /** Serialising a record and rebuilding it gives an equal record. */
  lemma RecordRoundTrip(l: Loss)
    ensures FromDict(AsDict(l)) == Ok(Some(l))
  {
  }

  /** A stored value rebuilds into a record equal to `l` exactly when it is
      a dict with the four field names whose values equal `l`'s fields in
      Python's sense; in particular a dict that is not `asdict(l)` can. */
  lemma LoadedEquals(j: Json, l: Loss)
    ensures FromDict(j) == Ok(Some(l)) <==>
      j.JObject? && j.fields.Keys == FieldNames && FieldsEqual(j.fields, l)
  {
  }

  /** Rebuilding fails only on a non-dict, on the wrong field names, or on
      a list or dict among the values; any other dict is loaded. */
  lemma LoadFailures(j: Json)
    ensures FromDict(j).Err? <==>
      !j.JObject? || j.fields.Keys != FieldNames ||
      exists name :: name in FieldNames && !Hashable(j.fields[name])
  {
    if j.JObject? && j.fields.Keys == FieldNames {
      var f := j.fields;
      if !Hashable(f["type"]) || !Hashable(f["status"]) || !Hashable(f["number"]) || !Hashable(f["link"]) {
      } else {
        forall name | name in FieldNames ensures Hashable(f[name]) {
          assert name == "type" || name == "status" || name == "number" || name == "link";
        }
      }
    }
  }

  /** A stored `"number": true` rebuilds into a record equal to the parsed
      record with number 1. */
  lemma BooleanNumberLoads()
    ensures FromDict(JObject(map["type" := JStr("T-72"), "status" := JStr("destroyed"),
                                 "number" := JBool(true), "link" := JStr("http://x")]))
            == Ok(Some(Loss("T-72", "destroyed", 1, "http://x")))
  {
  }

  /** A stored `"number": "4"` rebuilds into a record, but one no parsed
      record equals; a list among the values fails when it is hashed. */
  lemma MistypedFieldsLoad()
    ensures FromDict(JObject(map["type" := JStr("T-72"), "status" := JStr("destroyed"),
                                 "number" := JStr("4"), "link" := JStr("http://x")]))
            == Ok(None)
    ensures FromDict(JObject(map["type" := JStr("T-72"), "status" := JStr("destroyed"),
                                 "number" := JList([]), "link" := JStr("http://x")]))
            == Err(Unhashable)
  {
  }

  // ---------------------------------------------------------------------
  // Lists of records

  /** `list(map(asdict, records))`. */
  function DumpRecords(ls: seq<Loss>): (j: Json)
    ensures j.JList? && |j.items| == |ls|
    ensures forall k :: 0 <= k < |ls| ==> j.items[k] == AsDict(ls[k])
  {
    JList(seq(|ls|, k requires 0 <= k < |ls| => AsDict(ls[k])))
  }

  /** `map(lambda x: Loss(**x), items)` consumed in order by `set(...)`:
      the first item that fails aborts; otherwise the records some parsed
      record can equal, in order. */
  function LoadRecords(items: seq<Json>): (r: Result<seq<Loss>, LoadError>)
    ensures r.Ok? ==> |r.value| <= |items|
  {
    if items == [] then Ok([])
    else
      match LoadRecords(items[..|items| - 1])
      case Err(e) => Err(e)
      case Ok(init) =>
        match FromDict(items[|items| - 1])
        case Err(e) => Err(e)
        case Ok(None) => Ok(init)
        case Ok(Some(l)) => Ok(init + [l])
  }

  /** The records a stored value stands for when it is iterated: a list
      gives its items; a string or an object iterates over strings, which
      `Loss(**x)` refuses, so only an empty one gives no records; numbers,
      booleans and null cannot be iterated. */
  function IteratedRecords(v: Json): Result<seq<Loss>, LoadError>
  {
    match v
    case JList(items) => LoadRecords(items)
    case JStr(s) => if s == [] then Ok([]) else Err(NotAMapping)
    case JObject(f) => if f == map[] then Ok([]) else Err(NotAMapping)
    case _ => Err(NotIterable)
  }

  /** Loading a dumped list gives the list back, record for record. */
  lemma DumpLoadRoundTrip(ls: seq<Loss>)
    ensures IteratedRecords(DumpRecords(ls)) == Ok(ls)
  {
    LoadDumped(ls, DumpRecords(ls).items);
  }

  lemma {:induction false} LoadDumped(ls: seq<Loss>, items: seq<Json>)
    requires |items| == |ls| && forall k :: 0 <= k < |ls| ==> items[k] == AsDict(ls[k])
    ensures LoadRecords(items) == Ok(ls)
    decreases |ls|
  {
    if ls != [] {
      var n := |ls|;
      LoadDumped(ls[..n - 1], items[..n - 1]);
      RecordRoundTrip(ls[n - 1]);
      assert ls == ls[..n - 1] + [ls[n - 1]];
    }
  }

  /** A stored record whose number was written as a string loads, and
      adds nothing a parsed record could equal. */
  lemma MistypedNumberMatchesNothing(l: Loss, s: string)
    ensures LoadRecords([JObject(AsDict(l).fields["number" := JStr(s)])]) == Ok([])
  {
    var item := JObject(AsDict(l).fields["number" := JStr(s)]);
    assert item.fields.Keys == FieldNames;
    assert FromDict(item) == Ok(None);
    assert [item][..0] == [];
  }

  /** Loading a list succeeds exactly when every item rebuilds, and then a
      parsed record is among the loaded ones exactly when some stored item
      rebuilds into a record equal to it: `item in previous`. */
  lemma LoadRecordsSpec(items: seq<Json>)
    ensures LoadRecords(items).Ok? <==> forall k :: 0 <= k < |items| ==> FromDict(items[k]).Ok?
    ensures LoadRecords(items).Ok? ==> forall l :: l in LoadRecords(items).value <==>
      exists k :: 0 <= k < |items| && FromDict(items[k]) == Ok(Some(l))
  {
    LoadRecordsOk(items);
    if LoadRecords(items).Ok? {
      forall l ensures l in LoadRecords(items).value <==>
        exists k :: 0 <= k < |items| && FromDict(items[k]) == Ok(Some(l))
      {
        LoadedMember(items, l);
      }
    }
  }

  lemma {:induction false} LoadRecordsOk(items: seq<Json>)
    ensures LoadRecords(items).Ok? <==> forall k :: 0 <= k < |items| ==> FromDict(items[k]).Ok?
    decreases |items|
  {
    if items != [] {
      var n := |items|;
      var init := items[..n - 1];
      LoadRecordsOk(init);
      assert forall k :: 0 <= k < n - 1 ==> items[k] == init[k];
    }
  }

  lemma {:induction false} LoadedMember(items: seq<Json>, l: Loss)
    requires LoadRecords(items).Ok?
    ensures l in LoadRecords(items).value <==>
      exists k :: 0 <= k < |items| && FromDict(items[k]) == Ok(Some(l))
    decreases |items|
  {
    if items != [] {
      var n := |items|;
      var init := items[..n - 1];
      LoadRecordsNext(items);
      LoadedMember(init, l);
      if FromDict(items[n - 1]) != Ok(Some(l)) {
        if l in LoadRecords(items).value {
          var k :| 0 <= k < n - 1 && FromDict(init[k]) == Ok(Some(l));
          assert FromDict(items[k]) == Ok(Some(l));
        }
        if exists k :: 0 <= k < n && FromDict(items[k]) == Ok(Some(l)) {
          var k :| 0 <= k < n && FromDict(items[k]) == Ok(Some(l));
          assert FromDict(init[k]) == Ok(Some(l));
        }
      }
    }
  }

  /** A loaded list is the loaded front, and the last item's record when
      there is one. */
  lemma LoadRecordsNext(items: seq<Json>)
    requires items != [] && LoadRecords(items).Ok?
    ensures var init := items[..|items| - 1];
      var last := FromDict(items[|items| - 1]);
      && LoadRecords(init).Ok? && last.Ok?
      && LoadRecords(items).value == LoadRecords(init).value + (if last.value.Some? then [last.value.value] else [])
  {
  }

  // ---------------------------------------------------------------------
  // The baseline: country to records

  /** `dict(zip(keys, values))`: pairs up to the shorter list, a later
      duplicate key overriding an earlier one. */
  function ZipDict(keys: seq<string>, values: seq<Json>): (m: map<string, Json>)
    ensures forall k :: k in m ==> k in keys
  {
    if keys == [] || values == [] then map[]
    else
      var later := ZipDict(keys[1..], values[1..]);
      if keys[0] in later then later else later[keys[0] := values[0]]
  }

  /** With distinct keys and as many values, `dict(zip(...))` maps each key
      to its own value and holds no other key. */
  lemma {:induction false} ZipDictLookup(keys: seq<string>, values: seq<Json>)
    requires |keys| == |values|
    requires forall a, b :: 0 <= a < b < |keys| ==> keys[a] != keys[b]
    ensures forall k :: k in ZipDict(keys, values) <==> k in keys
    ensures forall i :: 0 <= i < |keys| ==> ZipDict(keys, values)[keys[i]] == values[i]
  {
    if keys != [] {
      var ks, vs := keys[1..], values[1..];
      ZipDictLookup(ks, vs);
      var later := ZipDict(ks, vs);
      assert keys[0] !in ks;
      assert ZipDict(keys, values) == later[keys[0] := values[0]];
      forall i | 1 <= i < |keys| ensures ZipDict(keys, values)[keys[i]] == values[i] {
        assert keys[i] == ks[i - 1] && values[i] == vs[i - 1];
        assert keys[i] != keys[0];
      }
    }
  }

  /** `dict(zip(countries, [list(map(asdict, new)) ...]))`, the payload the
      tracking cycle writes. */
  function DumpBaseline(countries: seq<string>, lists: seq<seq<Loss>>): Json
  {
    JObject(ZipDict(countries, seq(|lists|, k requires 0 <= k < |lists| => DumpRecords(lists[k]))))
  }

  /** How a country's previous records are looked up in the stored
      baseline: `last_data[country]` or `last_data.get(country, [])`. */
  datatype Lookup = Subscript | GetOrEmpty

  /** `set(map(lambda x: Loss(**x), <lookup of country in last>))`, as the
      list it is built from. */
  function PreviousRecords(last: Json, country: string, lookup: Lookup): Result<seq<Loss>, LoadError>
  {
    if !last.JObject? then Err(NotAMapping)
    else if country in last.fields then IteratedRecords(last.fields[country])
    else if lookup == GetOrEmpty then Ok([])
    else Err(MissingCountry(country))
  }

  /** A baseline written for distinct countries gives back, under either
      lookup, exactly each country's records. */
  lemma BaselineRoundTrip(countries: seq<string>, lists: seq<seq<Loss>>, lookup: Lookup, i: nat)
    requires |countries| == |lists| && i < |countries|
    requires forall a, b :: 0 <= a < b < |countries| ==> countries[a] != countries[b]
    ensures PreviousRecords(DumpBaseline(countries, lists), countries[i], lookup) == Ok(lists[i])
  {
    var values := seq(|lists|, k requires 0 <= k < |lists| => DumpRecords(lists[k]));
    ZipDictLookup(countries, values);
    DumpLoadRoundTrip(lists[i]);
  }

  /** A country the stored baseline does not name has no previous records
      under `.get(country, [])`, but is a KeyError under `[country]`. */
  lemma AbsentCountry(fields: map<string, Json>, country: string)
    requires country !in fields
    ensures PreviousRecords(JObject(fields), country, GetOrEmpty) == Ok([])
    ensures PreviousRecords(JObject(fields), country, Subscript) == Err(MissingCountry(country))
  {
  }
}
