/** The persistent record tracker: a dictionary from record uid to a dict of
    fields (at least a `status`), kept in insertion order and written back
    to its file after every change. */
module Tracker {
  import opened PyCore

  /** One record's fields. */
  type Fields = map<string, Value>

  /** One `uid: {fields}` pair of the tracker's file, in file order. */
  datatype Record = Record(uid: string, fields: Fields)

  /** The fields a newly seen uid starts with. */
  const NEW_FIELDS: Fields := map["status" := Str("NEW")]

  predicate Distinct(s: seq<string>)
  {
    forall i, j :: 0 <= i < j < |s| ==> s[i] != s[j]
  }

  /** The key order of a Python dict after assigning `keys`, in turn, into a
      dict whose keys were `order`: a new key goes last, an old one keeps its place. */
  function InsertOrder(order: seq<string>, keys: seq<string>): (r: seq<string>)
    ensures forall u :: u in r <==> u in order || u in keys
    ensures |order| <= |r| && r[..|order|] == order
  {
    if keys == [] then order
    else
      var o := InsertOrder(order, keys[..|keys| - 1]);
      var k := keys[|keys| - 1];
      assert forall u :: u in keys <==> u in keys[..|keys| - 1] || u == k by {
        assert keys == keys[..|keys| - 1] + [k];
      }
      if k in o then o else o + [k]
  }

  lemma {:induction false} InsertOrderDistinct(order: seq<string>, keys: seq<string>)
    requires Distinct(order)
    ensures Distinct(InsertOrder(order, keys))
  {
    if keys != [] {
      InsertOrderDistinct(order, keys[..|keys| - 1]);
    }
  }

  lemma InsertOne(order: seq<string>, k: string)
    ensures InsertOrder(order, [k]) == if k in order then order else order + [k]
  {
    assert [k][..0] == [];
  }

  /** Assigning keys that are all present already leaves the order alone. */
  lemma {:induction false} InsertOrderPresent(order: seq<string>, keys: seq<string>)
    requires forall k :: k in keys ==> k in order
    ensures InsertOrder(order, keys) == order
  {
    if keys != [] {
      assert forall k :: k in keys[..|keys| - 1] ==> k in keys;
      InsertOrderPresent(order, keys[..|keys| - 1]);
      assert keys[|keys| - 1] in keys;
    }
  }

  /** The same keys assigned twice give the order of assigning them once. */
  lemma InsertOrderIdempotent(order: seq<string>, keys: seq<string>)
    ensures InsertOrder(InsertOrder(order, keys), keys) == InsertOrder(order, keys)
  {
    InsertOrderPresent(InsertOrder(order, keys), keys);
  }

  // ----------------------------------------------------------- the file

  /** The uids of a file's records, in file order. */
  function Uids(rs: seq<Record>): (us: seq<string>)
    ensures |us| == |rs| && forall i :: 0 <= i < |rs| ==> us[i] == rs[i].uid
  {
    if rs == [] then [] else Uids(rs[..|rs| - 1]) + [rs[|rs| - 1].uid]
  }

  /** `json.load` of the file: the dict its pairs build, where a repeated uid
      keeps its first place and its last fields. */
  function LoadData(rs: seq<Record>): (d: map<string, Fields>)
    ensures forall u :: u in d <==> u in Uids(rs)
  {
    if rs == [] then map[]
    else
      assert Uids(rs) == Uids(rs[..|rs| - 1]) + [rs[|rs| - 1].uid];
      LoadData(rs[..|rs| - 1])[rs[|rs| - 1].uid := rs[|rs| - 1].fields]
  }

  function LoadOrder(rs: seq<Record>): seq<string>
  {
    InsertOrder([], Uids(rs))
  }

  /** `json.dump` of the tracker: its records in its key order. */
  function Dump(order: seq<string>, data: map<string, Fields>): (rs: seq<Record>)
    requires forall u :: u in order ==> u in data
    ensures |rs| == |order|
    ensures forall i :: 0 <= i < |order| ==> rs[i] == Record(order[i], data[order[i]])
  {
    if order == [] then [] else Dump(order[..|order| - 1], data) + [Record(order[|order| - 1], data[order[|order| - 1]])]
  }

  /** A saved tracker loads back as the same dict in the same order. */
  lemma DumpLoadRoundTrip(order: seq<string>, data: map<string, Fields>)
    requires Distinct(order) && forall u :: u in order ==> u in data
    ensures Uids(Dump(order, data)) == order
    ensures LoadOrder(Dump(order, data)) == order
    ensures forall u :: u in order ==> LoadData(Dump(order, data))[u] == data[u]
  {
    var rs := Dump(order, data);
    assert Uids(rs) == order;
    InsertDistinct([], order);
    LoadDump(order, data);
  }

  /** Assigning distinct new keys appends them in turn. */
  lemma {:induction false} InsertDistinct(order: seq<string>, keys: seq<string>)
    requires Distinct(keys) && forall k :: k in keys ==> k !in order
    ensures InsertOrder(order, keys) == order + keys
  {
    if keys != [] {
      var pre := keys[..|keys| - 1];
      var k := keys[|keys| - 1];
      assert forall j :: 0 <= j < |pre| ==> pre[j] == keys[j];
      InsertDistinct(order, pre);
      assert k !in pre;
      assert order + pre + [k] == order + keys;
    }
  }

  lemma {:induction false} LoadDump(order: seq<string>, data: map<string, Fields>)
    requires forall u :: u in order ==> u in data
    ensures forall u :: u in order ==> LoadData(Dump(order, data))[u] == data[u]
  {
    if order != [] {
      var pre := order[..|order| - 1];
      var last := order[|order| - 1];
      assert forall u :: u in pre ==> u in order;
      LoadDump(pre, data);
      var d := LoadDumpSnoc(order, data);
      var d0 := LoadData(Dump(pre, data));
      forall u | u in order
        ensures d[u] == data[u]
      {
        if u != last {
          InFront(order, u);
          assert d[u] == d0[u];
        }
      }
    }
  }

  /** A key of `s` other than its last is a key of the rest. */
  lemma InFront(s: seq<string>, u: string)
    requires u in s && u != s[|s| - 1]
    ensures u in s[..|s| - 1]
  {
    var i :| 0 <= i < |s| && s[i] == u;
    assert s[..|s| - 1][i] == u;
  }

  /** Loading a dump whose last record is `last` is loading the rest, then `last`. */
  lemma LoadDumpSnoc(order: seq<string>, data: map<string, Fields>) returns (d: map<string, Fields>)
    requires order != [] && forall u :: u in order ==> u in data
    ensures d == LoadData(Dump(order, data))
    ensures d == LoadData(Dump(order[..|order| - 1], data))[order[|order| - 1] := data[order[|order| - 1]]]
  {
    var pre := order[..|order| - 1];
    var last := order[|order| - 1];
    var rs := Dump(order, data);
    assert rs == Dump(pre, data) + [Record(last, data[last])];
    assert rs[..|rs| - 1] == Dump(pre, data);
    d := LoadData(rs);
  }

  // ------------------------------------------------------------- selection

  /** `rec.get("status") in statuses`. */
  predicate HasStatus(fields: Fields, statuses: seq<string>)
  {
    "status" in fields && fields["status"].Str? && fields["status"].s in statuses
  }

  /** The (uid, record) pairs whose status is one of `statuses`, in key order. */
  function Select(order: seq<string>, data: map<string, Fields>, statuses: seq<string>): (rs: seq<Record>)
    requires forall u :: u in order ==> u in data
    ensures forall r :: r in rs ==> r.uid in order && r.fields == data[r.uid] && HasStatus(r.fields, statuses)
  {
    if order == [] then []
    else
      var u := order[|order| - 1];
      var rest := Select(order[..|order| - 1], data, statuses);
      if HasStatus(data[u], statuses) then rest + [Record(u, data[u])] else rest
  }

  /** Every record with a matching status is selected. */
  lemma {:induction false} SelectComplete(order: seq<string>, data: map<string, Fields>, statuses: seq<string>, u: string)
    requires forall v :: v in order ==> v in data
    requires u in order && HasStatus(data[u], statuses)
    ensures Record(u, data[u]) in Select(order, data, statuses)
  {
    var pre := order[..|order| - 1];
    if u != order[|order| - 1] {
      assert order == pre + [order[|order| - 1]];
      SelectComplete(pre, data, statuses, u);
    }
  }

  /** The selected uids are exactly the keys whose record has a matching status. */
  lemma SelectUids(order: seq<string>, data: map<string, Fields>, statuses: seq<string>, u: string)
    requires forall v :: v in order ==> v in data
    ensures u in Uids(Select(order, data, statuses)) <==> u in order && HasStatus(data[u], statuses)
  {
    var rs := Select(order, data, statuses);
    if u in Uids(rs) {
      var i :| 0 <= i < |rs| && Uids(rs)[i] == u;
      assert rs[i] in rs;
    }
    if u in order && HasStatus(data[u], statuses) {
      SelectComplete(order, data, statuses, u);
      var i :| 0 <= i < |rs| && rs[i] == Record(u, data[u]);
      assert Uids(rs)[i] == u;
    }
  }

  /** Selection follows key order: a selection of a longer order extends the
      selection of its prefix. */
  lemma {:induction false} SelectAppend(a: seq<string>, b: seq<string>, data: map<string, Fields>, statuses: seq<string>)
    requires forall v :: v in a + b ==> v in data
    ensures Select(a + b, data, statuses) == Select(a, data, statuses) + Select(b, data, statuses)
  {
    if b != [] {
      assert (a + b)[..|a + b| - 1] == a + b[..|b| - 1];
      assert (a + b)[|a + b| - 1] == b[|b| - 1];
      SelectAppend(a, b[..|b| - 1], data, statuses);
    } else {
      assert a + b == a;
    }
  }

  /** The selected uids are distinct when the keys are. */
  lemma {:induction false} SelectDistinct(order: seq<string>, data: map<string, Fields>, statuses: seq<string>)
    requires Distinct(order) && forall v :: v in order ==> v in data
    ensures Distinct(Uids(Select(order, data, statuses)))
  {
    if order != [] {
      var pre := order[..|order| - 1];
      SelectDistinct(pre, data, statuses);
      var rest := Select(pre, data, statuses);
      assert order[|order| - 1] !in pre;
      assert forall r :: r in rest ==> r.uid in pre;
      assert forall i :: 0 <= i < |rest| ==> rest[i] in rest;
    }
  }

  // ----------------------------------------------------------- one scan

  /** The dict after assigning `{"status": "NEW"}` to every row uid it lacks. */
  function ScanData(data: map<string, Fields>, rows: seq<string>): (d: map<string, Fields>)
    ensures forall u :: u in d <==> u in data || u in rows
    ensures forall u :: u in data ==> d[u] == data[u]
    ensures forall u :: u in d && u !in data ==> d[u] == NEW_FIELDS
  {
    if rows == [] then data
    else
      var d := ScanData(data, rows[..|rows| - 1]);
      var u := rows[|rows| - 1];
      assert forall v :: v in rows <==> v in rows[..|rows| - 1] || v == u by {
        assert rows == rows[..|rows| - 1] + [u];
      }
      if u in d then d else d[u := NEW_FIELDS]
  }

  /** `dict.update`: the keyword fields win, every other field stays. */
  function Merge(rec: Fields, kwargs: Fields): (r: Fields)
    ensures forall k :: k in r <==> k in rec || k in kwargs
    ensures forall k :: k in kwargs ==> r[k] == kwargs[k]
    ensures forall k :: k in rec && k !in kwargs ==> r[k] == rec[k]
  {
    rec + kwargs
  }

  function Existing(data: map<string, Fields>, uid: string): Fields
  {
    if uid in data then data[uid] else map[]
  }

  class RecordTracker {
    /** The dict's keys, in insertion order. */
    var uids: seq<string>
    var data: map<string, Fields>
    /** The tracker file's records; `None` while there is no file. */
    ghost var disk: Option<seq<Record>>

    ghost predicate Valid()
      reads this
    {
      Distinct(uids) && forall u :: u in data <==> u in uids
    }

    /** `_load`: the file's dict, or an empty one when there is no file. */
    constructor (file: Option<seq<Record>>)
      ensures Valid()
      ensures file.None? ==> uids == [] && data == map[]
      ensures file.Some? ==> uids == LoadOrder(file.value) && data == LoadData(file.value)
      ensures disk == file
    {
      if file.Some? {
        uids := LoadOrder(file.value);
        data := LoadData(file.value);
        InsertOrderDistinct([], Uids(file.value));
      } else {
        uids := [];
        data := map[];
      }
      disk := file;
    }

    /** `save`: the file now holds exactly the tracker's dict. */
    method Save()
      requires Valid()
      modifies this
      ensures uids == old(uids) && data == old(data) && Valid()
      ensures disk == Some(Dump(uids, data))
    {
      disk := Some(Dump(uids, data));
    }

    /** `scan_new_records` on the uids its query returned. */
    method ScanNewRecords(rows: seq<string>)
      requires Valid()
      modifies this
      ensures Valid()
      ensures uids == InsertOrder(old(uids), rows)
      ensures data == ScanData(old(data), rows)
      ensures disk == Some(Dump(uids, data))
    {
      ghost var order0 := uids;
      ghost var data0 := data;
      var i := 0;
      while i < |rows|
        invariant 0 <= i <= |rows|
        invariant Valid()
        invariant uids == InsertOrder(order0, rows[..i])
        invariant data == ScanData(data0, rows[..i])
      {
        var uid := rows[i];
        assert rows[..i + 1][..i] == rows[..i] && rows[..i + 1][i] == uid;
        if uid !in data {
          data := data[uid := NEW_FIELDS];
          uids := uids + [uid];
        }
        i := i + 1;
      }
      assert rows[..i] == rows;
      Save();
    }

    /** `get_records_by_status`: nothing changes. */
    method GetRecordsByStatus(statuses: seq<string>) returns (result: seq<Record>)
      requires Valid()
      ensures result == Select(uids, data, statuses)
    {
      result := [];
      var i := 0;
      while i < |uids|
        invariant 0 <= i <= |uids|
        invariant result == Select(uids[..i], data, statuses)
      {
        var uid := uids[i];
        assert uids[..i + 1][..i] == uids[..i] && uids[..i + 1][i] == uid;
        if HasStatus(data[uid], statuses) {
          result := result + [Record(uid, data[uid])];
        }
        i := i + 1;
      }
      assert uids[..i] == uids;
    }

    /** `update_record`: the record, created empty if missing, takes the
        given fields; nothing else changes. */
    method UpdateRecord(uid: string, kwargs: Fields)
      requires Valid()
      modifies this
      ensures Valid()
      ensures uids == InsertOrder(old(uids), [uid])
      ensures data == old(data)[uid := Merge(Existing(old(data), uid), kwargs)]
      ensures disk == Some(Dump(uids, data))
    {
      InsertOne(uids, uid);
      var isNew := uid !in data;
      data := data[uid := Merge(Existing(data, uid), kwargs)];
      if isNew {
        uids := uids + [uid];
      }
      Save();
    }
  }

  // ---------------------------------------------------- what the state keeps

  /** Scanning the same rows again changes nothing. */
  lemma ScanIdempotent(order: seq<string>, data: map<string, Fields>, rows: seq<string>)
    ensures InsertOrder(InsertOrder(order, rows), rows) == InsertOrder(order, rows)
    ensures ScanData(ScanData(data, rows), rows) == ScanData(data, rows)
  {
    InsertOrderIdempotent(order, rows);
  }

  /** Updating an existing record does not move it and touches only the given
      fields; a field set to `None` is kept, holding `None`. */
  lemma UpdateFields(data: map<string, Fields>, uid: string, kwargs: Fields, k: string)
    requires uid in data
    ensures var r := Merge(Existing(data, uid), kwargs);
            && (k in kwargs ==> k in r && r[k] == kwargs[k])
            && (k !in kwargs && k in data[uid] ==> k in r && r[k] == data[uid][k])
            && (k !in kwargs && k !in data[uid] ==> k !in r)
  {
  }
}
