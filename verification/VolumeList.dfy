/**
 Listing volumes: merging the rows of a left join into one record per volume.
 */
module VolumeList {
  import opened Prelude

  type VolumeId = nat

  // A joined row; the id is None when its text is not a UUID.
  datatype Row = Row(
    volumeId: Option<VolumeId>, volumeLabel: Option<string>, capacity: int, removable: int, lastSeen: string,
    mountPath: Option<string>)

  datatype VolumeRecord = VolumeRecord(
    id: VolumeId, volumeLabel: Option<string>, capacityBytes: nat, isRemovable: bool, mounts: seq<string>, lastSeen: string)

  datatype ListError = BadVolumeUuid | NegativeCapacity

  predicate WellFormed(row: Row) {
    row.volumeId.Some? && row.capacity >= 0
  }

  // What is wrong with a row; its id is read first.
  function Fault(row: Row): Option<ListError> {
    if row.volumeId.None? then Some(BadVolumeUuid) else if row.capacity < 0 then Some(NegativeCapacity) else None
  }

  ghost predicate AllWellFormed(rows: seq<Row>, n: nat)
    requires n <= |rows|
  {
    forall i :: 0 <= i < n ==> WellFormed(rows[i])
  }

  // Non-null mounts of a volume, in row order.
  function MountsOf(rows: seq<Row>, id: VolumeId): seq<string> {
    if rows == [] then []
    else
      var last := rows[|rows| - 1];
      MountsOf(rows[..|rows| - 1], id) +
      (if last.volumeId == Some(id) && last.mountPath.Some? then [last.mountPath.value] else [])
  }

  lemma MountsGrow(rows: seq<Row>, row: Row, id: VolumeId)
    ensures MountsOf(rows + [row], id) ==
            MountsOf(rows, id) + (if row.volumeId == Some(id) then MountIn(row) else [])
  {
    assert (rows + [row])[..|rows|] == rows;
  }

  // Row i is where its volume is first seen.
  ghost predicate FirstAt(rows: seq<Row>, i: nat) {
    i < |rows| && forall j :: 0 <= j < i ==> rows[j].volumeId != rows[i].volumeId
  }

  // The record of the volume first seen in row i.
  ghost predicate Describes(rec: VolumeRecord, rows: seq<Row>, i: nat)
    requires i < |rows|
  {
    && rows[i].volumeId == Some(rec.id) && rec.volumeLabel == rows[i].volumeLabel
    && rec.capacityBytes == rows[i].capacity && (rec.isRemovable <==> rows[i].removable != 0)
    && rec.lastSeen == rows[i].lastSeen && rec.mounts == MountsOf(rows, rec.id)
  }

  ghost predicate HasRecord(records: seq<VolumeRecord>, row: Row) {
    exists k :: 0 <= k < |records| && row.volumeId == Some(records[k].id)
  }

  // One record per volume, in first-seen order, holding that volume's mounts in row order;
  // `firsts` are the rows where the volumes are first seen.
  ghost predicate Merges(rows: seq<Row>, records: seq<VolumeRecord>, firsts: seq<nat>) {
    && |firsts| == |records|
    && (forall k :: 0 <= k < |firsts| ==> FirstAt(rows, firsts[k]) && Describes(records[k], rows, firsts[k]))
    && (forall k, l :: 0 <= k < l < |firsts| ==> firsts[k] < firsts[l])
    && (forall i :: 0 <= i < |rows| ==> HasRecord(records, rows[i]))
  }

  // The mount a row adds to the record of its volume.
  function MountIn(row: Row): seq<string> {
    if row.mountPath.Some? then [row.mountPath.value] else []
  }

  function Extended(rec: VolumeRecord, row: Row): VolumeRecord {
    if row.volumeId == Some(rec.id) then rec.(mounts := rec.mounts + MountIn(row)) else rec
  }

  // A further row keeps the place of every record and adds at most a mount to it.
  lemma RowExtends(rows: seq<Row>, row: Row, rec: VolumeRecord, i: nat)
    requires FirstAt(rows, i) && Describes(rec, rows, i)
    ensures FirstAt(rows + [row], i) && Describes(Extended(rec, row), rows + [row], i)
  {
    MountsGrow(rows, row, rec.id);
  }

  method Find(records: seq<VolumeRecord>, id: VolumeId) returns (at: Option<nat>)
    ensures at.Some? ==> at.value < |records| && records[at.value].id == id
    ensures at.None? ==> forall k :: 0 <= k < |records| ==> records[k].id != id
  {
    for k := 0 to |records|
      invariant forall l :: 0 <= l < k ==> records[l].id != id
    {
      if records[k].id == id {
        return Some(k);
      }
    }
    return None;
  }

  method List(rows: seq<Row>) returns (r: Result<seq<VolumeRecord>, ListError>, ghost firsts: seq<nat>)
    ensures r.Ok? <==> AllWellFormed(rows, |rows|)
    ensures r.Ok? ==> Merges(rows, r.value, firsts)
    ensures r.Err? ==> exists i :: 0 <= i < |rows| && AllWellFormed(rows, i) && Fault(rows[i]) == Some(r.error)
  {
    var records: seq<VolumeRecord> := [];
    firsts := [];
    for i := 0 to |rows|
      invariant AllWellFormed(rows, i)
      invariant Merges(rows[..i], records, firsts)
    {
      var row := rows[i];
      assert rows[..i + 1] == rows[..i] + [row];
      if row.volumeId.None? {
        assert Fault(rows[i]) == Some(BadVolumeUuid);
        return Err(BadVolumeUuid), firsts;
      }
      if row.capacity < 0 {
        assert Fault(rows[i]) == Some(NegativeCapacity);
        return Err(NegativeCapacity), firsts;
      }
      records, firsts := MergeRow(rows[..i], records, firsts, row);
    }
    assert rows[..|rows|] == rows;
    return Ok(records), firsts;
  }

  // One turn of the loop, for a well-formed row.
  method MergeRow(ghost rows: seq<Row>, records0: seq<VolumeRecord>, ghost firsts0: seq<nat>, row: Row)
    returns (records: seq<VolumeRecord>, ghost firsts: seq<nat>)
    requires Merges(rows, records0, firsts0) && WellFormed(row)
    ensures Merges(rows + [row], records, firsts)
  {
    records, firsts := records0, firsts0;
    var id := row.volumeId.value;
    var at := Find(records, id);
    if at.Some? {
      AddMount(rows, records, firsts, row, at.value);
      if row.mountPath.Some? {
        records := records[at.value := Extended(records[at.value], row)];
      }
    } else {
      var rec := VolumeRecord(id, row.volumeLabel, row.capacity, row.removable != 0, MountIn(row), row.lastSeen);
      AddRecord(rows, records, firsts, row, rec);
      records := records + [rec];
      firsts := firsts + [|rows|];
    }
  }

  // A row of a known volume extends that volume's record only.
  lemma AddMount(rows: seq<Row>, records: seq<VolumeRecord>, firsts: seq<nat>, row: Row, at: nat)
    requires Merges(rows, records, firsts) && at < |records| && row.volumeId == Some(records[at].id)
    ensures Merges(rows + [row], records[at := Extended(records[at], row)], firsts)
    ensures row.mountPath.None? ==> records[at := Extended(records[at], row)] == records
  {
    var records', rows' := records[at := Extended(records[at], row)], rows + [row];
    assert records[at].mounts + [] == records[at].mounts;
    forall k | 0 <= k < |firsts| ensures FirstAt(rows', firsts[k]) && Describes(records'[k], rows', firsts[k]) {
      RowExtends(rows, row, records[k], firsts[k]);
      if k != at {
        OneRecordEach(rows, records, firsts, k, at);
      }
    }
    forall i | 0 <= i < |rows'| ensures HasRecord(records', rows'[i]) {
      SameIds(records, records', if i < |rows| then rows[i] else row);
    }
  }

  lemma SameIds(records: seq<VolumeRecord>, records': seq<VolumeRecord>, row: Row)
    requires |records'| == |records| && forall k :: 0 <= k < |records| ==> records'[k].id == records[k].id
    requires HasRecord(records, row)
    ensures HasRecord(records', row)
  {
    var k :| 0 <= k < |records| && row.volumeId == Some(records[k].id);
    assert records'[k].id == records[k].id;
  }

  // A row of a new volume appends a record.
  lemma AddRecord(rows: seq<Row>, records: seq<VolumeRecord>, firsts: seq<nat>, row: Row, rec: VolumeRecord)
    requires Merges(rows, records, firsts) && row.volumeId == Some(rec.id)
    requires forall k :: 0 <= k < |records| ==> records[k].id != rec.id
    requires rec.mounts == MountIn(row) && row.capacity == rec.capacityBytes
    requires rec.volumeLabel == row.volumeLabel && (rec.isRemovable <==> row.removable != 0) && rec.lastSeen == row.lastSeen
    ensures Merges(rows + [row], records + [rec], firsts + [|rows|])
  {
    var rows', records', firsts' := rows + [row], records + [rec], firsts + [|rows|];
    NewVolume(rows, records, row, rec);
    forall k | 0 <= k < |firsts'| ensures FirstAt(rows', firsts'[k]) && Describes(records'[k], rows', firsts'[k]) {
      if k < |firsts| {
        RowExtends(rows, row, records[k], firsts[k]);
        assert Extended(records[k], row) == records[k];
      }
    }
    forall i | 0 <= i < |rows'| ensures HasRecord(records', rows'[i]) {
      MoreRecords(records, rec, if i < |rows| then rows[i] else row);
    }
  }

  lemma NewVolume(rows: seq<Row>, records: seq<VolumeRecord>, row: Row, rec: VolumeRecord)
    requires forall i :: 0 <= i < |rows| ==> HasRecord(records, rows[i])
    requires forall k :: 0 <= k < |records| ==> records[k].id != rec.id
    requires row.volumeId == Some(rec.id) && rec.mounts == MountIn(row) && row.capacity == rec.capacityBytes
    requires rec.volumeLabel == row.volumeLabel && (rec.isRemovable <==> row.removable != 0) && rec.lastSeen == row.lastSeen
    ensures FirstAt(rows + [row], |rows|) && Describes(rec, rows + [row], |rows|)
  {
    NoMounts(rows, records, rec.id);
    MountsGrow(rows, row, rec.id);
    var rows' := rows + [row];
    forall j | 0 <= j < |rows| ensures rows'[j].volumeId != row.volumeId {
      assert HasRecord(records, rows[j]);
    }
  }

  lemma MoreRecords(records: seq<VolumeRecord>, rec: VolumeRecord, row: Row)
    requires HasRecord(records, row) || row.volumeId == Some(rec.id)
    ensures HasRecord(records + [rec], row)
  {
    var records' := records + [rec];
    assert records'[|records|] == rec;
    if k :| 0 <= k < |records| && row.volumeId == Some(records[k].id) {
      assert records'[k] == records[k];
    }
  }

  lemma OneRecordEach(rows: seq<Row>, records: seq<VolumeRecord>, firsts: seq<nat>, k: nat, l: nat)
    requires Merges(rows, records, firsts) && k < |records| && l < |records| && k != l
    ensures records[k].id != records[l].id
  {
    var i, j := firsts[if k < l then k else l], firsts[if k < l then l else k];
    assert FirstAt(rows, j) && i < j;
    assert Describes(records[k], rows, firsts[k]) && Describes(records[l], rows, firsts[l]);
  }

  lemma {:induction false} NoMounts(rows: seq<Row>, records: seq<VolumeRecord>, id: VolumeId)
    requires forall i :: 0 <= i < |rows| ==> HasRecord(records, rows[i])
    requires forall k :: 0 <= k < |records| ==> records[k].id != id
    ensures MountsOf(rows, id) == []
  {
    if rows != [] {
      assert HasRecord(records, rows[|rows| - 1]);
      NoMounts(rows[..|rows| - 1], records, id);
    }
  }

  // The merge is determined by the rows: any two answers that meet the description are equal.
  lemma MergeUnique(rows: seq<Row>, r1: seq<VolumeRecord>, f1: seq<nat>, r2: seq<VolumeRecord>, f2: seq<nat>)
    requires Merges(rows, r1, f1) && Merges(rows, r2, f2)
    ensures r1 == r2 && f1 == f2
  {
    FirstsIncluded(rows, r1, f1, r2, f2);
    FirstsIncluded(rows, r2, f2, r1, f1);
    SortedUnique(f1, f2);
    forall k | 0 <= k < |r1| ensures r1[k] == r2[k] {
      assert Describes(r1[k], rows, f1[k]) && Describes(r2[k], rows, f2[k]);
    }
  }

  lemma FirstsIncluded(rows: seq<Row>, r1: seq<VolumeRecord>, f1: seq<nat>, r2: seq<VolumeRecord>, f2: seq<nat>)
    requires Merges(rows, r1, f1) && Merges(rows, r2, f2)
    ensures forall i :: i in f1 ==> i in f2
  {
    forall i | i in f1 ensures i in f2 {
      var k :| 0 <= k < |f1| && f1[k] == i;
      assert FirstAt(rows, f1[k]);
      assert HasRecord(r2, rows[i]);
      var l :| 0 <= l < |r2| && rows[i].volumeId == Some(r2[l].id);
      assert FirstAt(rows, f2[l]) && Describes(r2[l], rows, f2[l]);
      assert f2[l] == i;
    }
  }

  ghost predicate Sorted(s: seq<nat>) {
    forall k, l :: 0 <= k < l < |s| ==> s[k] < s[l]
  }

  ghost predicate SameMembers(a: seq<nat>, b: seq<nat>) {
    forall i :: i in a <==> i in b
  }

  lemma SortedFront(front: seq<nat>, last: nat)
    requires Sorted(front + [last])
    ensures Sorted(front) && forall i :: i in front ==> i < last
  {
    var s := front + [last];
    assert s[|front|] == last;
    forall k, l | 0 <= k < l < |front| ensures front[k] < front[l] {
      assert s[k] < s[l];
    }
    forall i | i in front ensures i < last {
      var k :| 0 <= k < |front| && front[k] == i;
      assert s[k] < s[|front|];
    }
  }

  lemma SameLast(a: seq<nat>, m: nat, b: seq<nat>, n: nat)
    requires Sorted(a + [m]) && Sorted(b + [n]) && SameMembers(a + [m], b + [n])
    ensures m == n && SameMembers(a, b)
  {
    SortedFront(a, m);
    SortedFront(b, n);
    assert m in a + [m] && n in b + [n];
    assert forall i :: i in a + [m] <==> i in a || i == m;
    assert forall i :: i in b + [n] <==> i in b || i == n;
  }

  lemma {:induction false} SortedUnique(a: seq<nat>, b: seq<nat>)
    requires Sorted(a) && Sorted(b) && SameMembers(a, b)
    ensures a == b
  {
    if a != [] {
      assert a[0] in b;
    }
    if b != [] {
      assert b[0] in a;
    }
    if a != [] {
      var a', b' := a[..|a| - 1], b[..|b| - 1];
      assert a == a' + [a[|a| - 1]] && b == b' + [b[|b| - 1]];
      SameLast(a', a[|a| - 1], b', b[|b| - 1]);
      SortedFront(a', a[|a| - 1]);
      SortedFront(b', b[|b| - 1]);
      SortedUnique(a', b');
    }
  }

  // Mount by mount: every row of the volume with a mount path gives one, in row order, and nothing
  // else does.
  lemma {:induction false} MountsAt(rows: seq<Row>, id: VolumeId, i: nat)
    requires i < |rows|
    ensures MountsOf([], id) == [] && |MountsOf(rows[..i + 1], id)| <= |MountsOf(rows, id)|
    ensures |MountsOf(rows[..i + 1], id)| ==
            |MountsOf(rows[..i], id)| + (if rows[i].volumeId == Some(id) && rows[i].mountPath.Some? then 1 else 0)
    ensures rows[i].volumeId == Some(id) && rows[i].mountPath.Some? ==>
              MountsOf(rows, id)[|MountsOf(rows[..i], id)|] == rows[i].mountPath.value
    decreases |rows|
  {
    var front := rows[..|rows| - 1];
    if i < |front| {
      MountsAt(front, id, i);
      assert rows[..i] == front[..i] && rows[..i + 1] == front[..i + 1];
    } else {
      assert rows[..i] == front && rows[..i + 1] == rows;
    }
  }

  // Column by column, the record of a volume is its first row.
  lemma RecordColumns(rows: seq<Row>, records: seq<VolumeRecord>, firsts: seq<nat>, k: nat)
    requires Merges(rows, records, firsts) && k < |records|
    ensures firsts[k] < |rows|
    ensures var row, rec := rows[firsts[k]], records[k];
            && row.volumeId == Some(rec.id) && row.volumeLabel == rec.volumeLabel && row.capacity == rec.capacityBytes
            && (rec.isRemovable <==> row.removable != 0) && row.lastSeen == rec.lastSeen
    ensures forall j :: 0 <= j < firsts[k] ==> rows[j].volumeId != Some(records[k].id)
  {
    assert FirstAt(rows, firsts[k]) && Describes(records[k], rows, firsts[k]);
  }
}
