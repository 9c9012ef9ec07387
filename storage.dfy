/**
  * The browser-local measurement store: one storage key holding the list of
  * measurement records, read in full, changed and written back by each
  * operation. The JSON encoding under the key is abstracted away: the key
  * holds either nothing or a sequence of records.
  */
module Storage {
  import opened JsValues

  /** A stored measurement: a plain object, from field name to value. */
  type Record = map<string, JsValue>

  /** Reading `m[key]` on a record: `undefined` for a missing field. */
  function Field(m: Record, key: string): JsValue
  {
    if key in m then m[key] else Undefined
  }

  /** The test `m.id === id` that both `findIndex` and `filter` use. */
  predicate HasId(m: Record, id: JsValue)
  {
    StrictEquals(Field(m, "id"), id)
  }

  /** `{...measurement, id, createdAt, isFavorite: false}`: the caller's
      fields, then the three stamped ones, which win over the caller's. */
  function Stamped(measurement: Record, id: int, createdAt: string): (r: Record)
    ensures Field(r, "id") == Num(Finite(id as real))
    ensures Field(r, "createdAt") == Str(createdAt)
    ensures Field(r, "isFavorite") == Bool(false)
    ensures r.Keys == measurement.Keys + {"id", "createdAt", "isFavorite"}
    ensures forall k :: k in measurement && k != "id" && k != "createdAt" && k != "isFavorite" ==>
      r[k] == measurement[k]
  {
    measurement + map["id" := Num(Finite(id as real)), "createdAt" := Str(createdAt), "isFavorite" := Bool(false)]
  }

  /** `{...m, ...updates}`: every field of both, the update's value winning. */
  function Merged(m: Record, updates: Record): (r: Record)
    ensures r.Keys == m.Keys + updates.Keys
    ensures forall k :: k in updates ==> r[k] == updates[k]
    ensures forall k :: k in m && k !in updates ==> r[k] == m[k]
  {
    m + updates
  }

  /** `records.findIndex(m => m.id === id)`: the first record with that id,
      or -1 when there is none. */
  function FindIndex(records: seq<Record>, id: JsValue): (i: int)
    ensures -1 <= i < |records|
    ensures 0 <= i ==> HasId(records[i], id)
    ensures forall j :: 0 <= j < |records| && (i == -1 || j < i) ==> !HasId(records[j], id)
  {
    if records == [] then -1
    else if HasId(records[0], id) then 0
    else
      var k := FindIndex(records[1..], id);
      assert forall j :: 1 <= j < |records| ==> records[j] == records[1..][j - 1];
      if k == -1 then -1 else k + 1
  }

  /** The list `update` leaves behind: the first record with the id merged
      with the updates, every other record as it was. */
  function Updated(records: seq<Record>, id: JsValue, updates: Record): (u: seq<Record>)
    ensures |u| == |records|
    ensures FindIndex(records, id) == -1 ==> u == records
    ensures FindIndex(records, id) >= 0 ==>
      u[FindIndex(records, id)] == Merged(records[FindIndex(records, id)], updates)
    ensures forall j :: 0 <= j < |records| && j != FindIndex(records, id) ==> u[j] == records[j]
  {
    var i := FindIndex(records, id);
    if i == -1 then records else records[i := Merged(records[i], updates)]
  }

  /** `records.filter(m => m.id !== id)`. */
  function Without(records: seq<Record>, id: JsValue): (kept: seq<Record>)
    ensures |kept| <= |records|
  {
    if records == [] then []
    else (if HasId(records[0], id) then [] else [records[0]]) + Without(records[1..], id)
  }

  /** `delete` drops every copy of a record with that id and keeps every
      copy of every other record. */
  lemma {:induction false} WithoutCounts(records: seq<Record>, id: JsValue)
    ensures forall m :: multiset(Without(records, id))[m] == if HasId(m, id) then 0 else multiset(records)[m]
  {
    if records != [] {
      WithoutCounts(records[1..], id);
      assert records == [records[0]] + records[1..];
    }
  }

  /** `s` is `t` with some elements removed and the rest in their order. */
  predicate IsSubsequence(s: seq<Record>, t: seq<Record>)
  {
    if t == [] then s == []
    else (s != [] && s[0] == t[0] && IsSubsequence(s[1..], t[1..])) || IsSubsequence(s, t[1..])
  }

  /** `delete` keeps exactly the records without that id. */
  lemma {:induction false} WithoutMembers(records: seq<Record>, id: JsValue)
    ensures forall m :: m in Without(records, id) <==> m in records && !HasId(m, id)
  {
    if records != [] {
      WithoutMembers(records[1..], id);
      assert records == [records[0]] + records[1..];
    }
  }

  /** `delete` keeps the surviving records in their relative order. */
  lemma {:induction false} WithoutIsSubsequence(records: seq<Record>, id: JsValue)
    ensures IsSubsequence(Without(records, id), records)
  {
    if records != [] {
      WithoutIsSubsequence(records[1..], id);
      var rest := Without(records[1..], id);
      if HasId(records[0], id) {
        assert Without(records, id) == rest;
      } else {
        var kept := [records[0]] + rest;
        assert Without(records, id) == kept;
        assert kept[0] == records[0] && kept[1..] == rest;
      }
    }
  }

  /** Filtering a list with one more record in front. */
  lemma WithoutCons(m: Record, rest: seq<Record>, id: JsValue)
    ensures Without([m] + rest, id) == (if HasId(m, id) then [] else [m]) + Without(rest, id)
  {
    assert ([m] + rest)[0] == m && ([m] + rest)[1..] == rest;
  }

  /** Filtering a concatenation filters each part: the filter never reorders. */
  lemma {:induction false} WithoutAppend(a: seq<Record>, b: seq<Record>, id: JsValue)
    ensures Without(a + b, id) == Without(a, id) + Without(b, id)
  {
    if a == [] {
      assert a + b == b;
    } else {
      var m, rest := a[0], a[1..];
      var head := if HasId(m, id) then [] else [m];
      calc {
        Without(a + b, id);
        { assert a + b == [m] + (rest + b); }
        Without([m] + (rest + b), id);
        { WithoutCons(m, rest + b, id); }
        head + Without(rest + b, id);
        { WithoutAppend(rest, b, id); }
        head + (Without(rest, id) + Without(b, id));
        (head + Without(rest, id)) + Without(b, id);
        { assert a == [m] + rest; WithoutCons(m, rest, id); }
        Without(a, id) + Without(b, id);
      }
    }
  }

  /** Deleting an id a second time changes nothing. */
  lemma {:induction false} WithoutIdempotent(records: seq<Record>, id: JsValue)
    ensures Without(Without(records, id), id) == Without(records, id)
  {
    if records != [] {
      WithoutIdempotent(records[1..], id);
      var rest := Without(records[1..], id);
      if HasId(records[0], id) {
        assert Without(records, id) == rest;
      } else {
        var kept := [records[0]] + rest;
        assert Without(records, id) == kept;
        assert kept[0] == records[0] && kept[1..] == rest;
        assert Without(kept, id) == [records[0]] + Without(rest, id);
      }
    }
  }

  /** Deleting an id no record has leaves the list as it was. */
  lemma {:induction false} WithoutAbsentId(records: seq<Record>, id: JsValue)
    requires FindIndex(records, id) == -1
    ensures Without(records, id) == records
  {
    if records != [] {
      assert FindIndex(records[1..], id) == -1 by {
        forall j | 0 <= j < |records| - 1 ensures !HasId(records[1..][j], id) {
          assert records[1..][j] == records[j + 1];
        }
      }
      WithoutAbsentId(records[1..], id);
      assert [records[0]] + records[1..] == records;
    }
  }

  /** The storage key and what it holds. */
  class MeasurementStore {
    /** The list under the storage key, or None when the key is absent. */
    var stored: Option<seq<Record>>

    /** A store whose key has never been written. */
    constructor ()
      ensures stored == None
    {
      stored := None;
    }

    /** What `getAll` reads: the stored list, or `[]` for an absent key. */
    function Contents(): seq<Record>
      reads this
    {
      if stored.Some? then stored.value else []
    }

    /** `storage.getAll()`. */
    method GetAll() returns (all: seq<Record>)
      ensures stored == None ==> all == []
      ensures stored.Some? ==> all == stored.value
    {
      if stored.Some? {
        all := stored.value;
      } else {
        all := [];
      }
    }

    /** `storage.save(measurement)`, with the clock's id and timestamp given. */
    method Save(measurement: Record, id: int, createdAt: string) returns (r: Record)
      modifies this
      ensures r == Stamped(measurement, id, createdAt)
      ensures stored == Some(old(Contents()) + [r])
    {
      var measurements := GetAll();
      r := Stamped(measurement, id, createdAt);
      measurements := measurements + [r];
      stored := Some(measurements);
    }

    /** `storage.update(id, updates)`: writes back only when a record matched. */
    method Update(id: JsValue, updates: Record) returns (all: seq<Record>)
      modifies this
      ensures all == Updated(old(Contents()), id, updates)
      ensures stored == if FindIndex(old(Contents()), id) == -1 then old(stored) else Some(all)
    {
      all := GetAll();
      var index := FindIndex(all, id);
      if index != -1 {
        all := all[index := Merged(all[index], updates)];
        stored := Some(all);
      }
    }

    /** `storage.delete(id)`: always writes the filtered list back. */
    method Delete(id: JsValue) returns (filtered: seq<Record>)
      modifies this
      ensures filtered == Without(old(Contents()), id)
      ensures stored == Some(filtered)
    {
      var measurements := GetAll();
      filtered := Without(measurements, id);
      stored := Some(filtered);
    }

    /** `storage.clear()`: removes the key, so that `getAll` reads `[]`. */
    method Clear()
      modifies this
      ensures stored == None && Contents() == []
    {
      stored := None;
    }
  }
}
