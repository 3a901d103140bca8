/**
 Candidate duplicates: grouping files by fingerprint over one snapshot of the files and
 file_locations tables, and marking false positives.
 */
module Collisions {
  import opened Prelude
  import opened Hex

  type FileUuid = nat

  datatype FileRow = FileRow(
    uuid: FileUuid, blake3: Option<seq<Byte>>, quick: Option<seq<Byte>>, size: int, deleted: bool, distinct: bool)

  datatype LocationRow = LocationRow(
    id: nat, blake3: seq<Byte>, volume: nat, path: string, status: string, deleted: bool)

  datatype Db = Db(files: seq<FileRow>, locations: seq<LocationRow>)

  predicate UniqueUuids(files: seq<FileRow>) {
    forall i, j :: 0 <= i < j < |files| ==> files[i].uuid != files[j].uuid
  }

  // Primary keys, and the unique file id.
  ghost predicate WellKept(db: Db) {
    && UniqueUuids(db.files)
    && (forall i, j :: 0 <= i < j < |db.files| && db.files[i].blake3.Some? ==> db.files[i].blake3 != db.files[j].blake3)
    && (forall i, j :: 0 <= i < j < |db.locations| ==> db.locations[i].id != db.locations[j].id)
  }

  // ---------------------------------------------------------------------------
  // What the two queries select
  // ---------------------------------------------------------------------------

  predicate Live(f: FileRow, hex: seq<Byte>) {
    f.quick == Some(hex) && !f.deleted
  }

  predicate Candidate(f: FileRow, hex: seq<Byte>) {
    Live(f, hex) && !f.distinct
  }

  // GROUP BY quick_hash HAVING COUNT(*) > 1 keeps this fingerprint.
  ghost predicate Collides(db: Db, hex: seq<Byte>) {
    exists i, j :: 0 <= i < j < |db.files| && Candidate(db.files[i], hex) && Candidate(db.files[j], hex)
  }

  datatype JoinRow = JoinRow(file: FileRow, location: LocationRow)

  predicate Joins(row: JoinRow, hex: seq<Byte>) {
    Live(row.file, hex) && !row.location.deleted && row.file.blake3 == Some(row.location.blake3)
  }

  predicate Selected(db: Db, hex: seq<Byte>, row: JoinRow) {
    row.file in db.files && row.location in db.locations && Joins(row, hex)
  }

  // A fingerprint with a live location somewhere.
  ghost predicate Located(db: Db, hex: seq<Byte>) {
    exists row :: Selected(db, hex, row)
  }

  // The answers of the database engine to the two statements.
  datatype Answers = Answers(fingerprints: seq<seq<Byte>>, locations: seq<Byte> -> seq<JoinRow>)

  ghost predicate Ascending(hexes: seq<seq<Byte>>) {
    forall i, j :: 0 <= i < j < |hexes| ==> Below(hexes[i], hexes[j])
  }

  ghost predicate AnswerTo(a: Answers, db: Db) {
    && (forall hex :: hex in a.fingerprints <==> Collides(db, hex))
    && Ascending(a.fingerprints)
    && (forall hex, row :: row in a.locations(hex) <==> Selected(db, hex, row))
    && (forall hex :: Distinct(a.locations(hex)))
  }

  // ---------------------------------------------------------------------------
  // The listing loop
  // ---------------------------------------------------------------------------

  datatype Status = Active | Missing | Moved | Stale

  datatype FileLocation = FileLocation(
    uuid: FileUuid, hash: Option<Hash>, size: nat, volume: nat, path: string, status: Status)

  datatype Group = Group(quickHash: Hash, files: seq<FileLocation>)

  datatype ListError = CorruptRow

  function ParseStatus(s: string): Option<Status> {
    if s == "active" then Some(Active)
    else if s == "missing" then Some(Missing)
    else if s == "moved" then Some(Moved)
    else if s == "stale" then Some(Stale)
    else None
  }

  // The record a joined row stands for.
  ghost predicate Shows(rec: FileLocation, row: JoinRow) {
    && rec.uuid == row.file.uuid && rec.size == row.file.size
    && rec.volume == row.location.volume && rec.path == row.location.path
    && Some(rec.status) == ParseStatus(row.location.status)
    && (rec.hash.Some? <==> row.file.blake3.Some?)
    && (rec.hash.Some? ==> row.file.blake3 == Some(HexOf(rec.hash.value)))
  }

  // Each of the four stored texts has its own status, and there are no others.
  lemma StatusTexts(rec: FileLocation, row: JoinRow)
    requires Shows(rec, row)
    ensures row.location.status in ["active", "missing", "moved", "stale"]
    ensures rec.status == Active <==> row.location.status == "active"
    ensures rec.status == Missing <==> row.location.status == "missing"
    ensures rec.status == Moved <==> row.location.status == "moved"
    ensures rec.status == Stale <==> row.location.status == "stale"
  {
  }

  ghost predicate Parses(row: JoinRow) {
    exists rec :: Shows(rec, row)
  }

  method ParseRow(row: JoinRow) returns (r: Result<FileLocation, ListError>)
    ensures r.Ok? ==> Shows(r.value, row)
    ensures r.Err? ==> !Parses(row)
  {
    var hash: Option<Hash> := None;
    if row.file.blake3.Some? {
      var h := ParseHex(row.file.blake3.value);
      if h.Err? {
        return Err(CorruptRow);
      }
      hash := Some(h.value);
    }
    var status := ParseStatus(row.location.status);
    if status.None? || row.file.size < 0 {
      return Err(CorruptRow);
    }
    return Ok(FileLocation(row.file.uuid, hash, row.file.size, row.location.volume, row.location.path, status.value));
  }

  ghost predicate ShowsAll(recs: seq<FileLocation>, rows: seq<JoinRow>) {
    |recs| == |rows| && forall i :: 0 <= i < |rows| ==> Shows(recs[i], rows[i])
  }

  method ParseRows(rows: seq<JoinRow>) returns (r: Result<seq<FileLocation>, ListError>)
    ensures r.Ok? ==> ShowsAll(r.value, rows)
    ensures r.Err? <==> exists i :: 0 <= i < |rows| && !Parses(rows[i])
  {
    var files := [];
    for i := 0 to |rows|
      invariant ShowsAll(files, rows[..i])
      invariant forall j :: 0 <= j < i ==> Parses(rows[j])
    {
      var rec := ParseRow(rows[i]);
      if rec.Err? {
        return Err(CorruptRow);
      }
      assert Shows(rec.value, rows[i]);
      files := files + [rec.value];
    }
    return Ok(files);
  }

  // The groups are those of the first n fingerprints that have a location left, in order.
  ghost predicate Groups(a: Answers, n: nat, groups: seq<Group>)
    requires n <= |a.fingerprints|
  {
    && (forall g :: g in groups ==> HexOf(g.quickHash) in a.fingerprints[..n])
    && (forall g :: g in groups ==> g.files != [] && ShowsAll(g.files, a.locations(HexOf(g.quickHash))))
    && (forall k :: 0 <= k < n && a.locations(a.fingerprints[k]) != [] ==> HasGroup(groups, a.fingerprints[k]))
    && (forall k, l :: 0 <= k < l < |groups| ==> Below(HexOf(groups[k].quickHash), HexOf(groups[l].quickHash)))
  }

  ghost predicate HasGroup(groups: seq<Group>, hex: seq<Byte>) {
    exists k :: 0 <= k < |groups| && HexOf(groups[k].quickHash) == hex
  }

  // A fingerprint and its rows that can be shown.
  ghost predicate Showable(a: Answers, hex: seq<Byte>) {
    IsHexForm(hex) && forall i :: 0 <= i < |a.locations(hex)| ==> Parses(a.locations(hex)[i])
  }

  method ListCollisions(a: Answers) returns (r: Result<seq<Group>, ListError>)
    requires Ascending(a.fingerprints)
    ensures r.Ok? <==> forall k :: 0 <= k < |a.fingerprints| ==> Showable(a, a.fingerprints[k])
    ensures r.Ok? ==> Groups(a, |a.fingerprints|, r.value)
  {
    var groups := [];
    for n := 0 to |a.fingerprints|
      invariant Groups(a, n, groups)
      invariant forall k :: 0 <= k < n ==> Showable(a, a.fingerprints[k])
    {
      var hex := a.fingerprints[n];
      var quickHash := ParseHex(hex);
      if quickHash.Err? {
        return Err(CorruptRow);
      }
      var files := ParseRows(a.locations(hex));
      if files.Err? {
        return Err(CorruptRow);
      }
      if files.value != [] {
        GroupsGrow(a, n, groups, Group(quickHash.value, files.value));
        groups := groups + [Group(quickHash.value, files.value)];
      } else {
        GroupsSkip(a, n, groups);
      }
    }
    return Ok(groups);
  }

  lemma GroupsGrow(a: Answers, n: nat, groups: seq<Group>, g: Group)
    requires n < |a.fingerprints| && Ascending(a.fingerprints) && Groups(a, n, groups)
    requires HexOf(g.quickHash) == a.fingerprints[n] && g.files != []
    requires ShowsAll(g.files, a.locations(a.fingerprints[n]))
    ensures Groups(a, n + 1, groups + [g])
  {
    var groups' := groups + [g];
    assert a.fingerprints[..n + 1] == a.fingerprints[..n] + [a.fingerprints[n]];
    forall k | 0 <= k < n + 1 && a.locations(a.fingerprints[k]) != [] ensures HasGroup(groups', a.fingerprints[k]) {
      if k < n {
        var j :| 0 <= j < |groups| && HexOf(groups[j].quickHash) == a.fingerprints[k];
        assert groups'[j] == groups[j];
      } else {
        assert groups'[|groups|] == g;
      }
    }
    forall k | 0 <= k < |groups| ensures Below(HexOf(groups[k].quickHash), HexOf(g.quickHash)) {
      assert groups[k] in groups;
      var j :| 0 <= j < n && a.fingerprints[..n][j] == HexOf(groups[k].quickHash);
      assert Below(a.fingerprints[j], a.fingerprints[n]);
    }
  }

  lemma GroupsSkip(a: Answers, n: nat, groups: seq<Group>)
    requires n < |a.fingerprints| && Groups(a, n, groups) && a.locations(a.fingerprints[n]) == []
    ensures Groups(a, n + 1, groups)
  {
    assert a.fingerprints[..n + 1] == a.fingerprints[..n] + [a.fingerprints[n]];
  }

  // ---------------------------------------------------------------------------
  // What the listing means for the tables
  // ---------------------------------------------------------------------------

  // Strictly ascending by fingerprint; a fingerprint is listed iff at least two live unmarked
  // files share it and it has a live location; a group shows exactly the live locations of the
  // live files, marked or not, with its fingerprint.
  lemma ListingMeaning(db: Db, a: Answers, groups: seq<Group>)
    requires AnswerTo(a, db) && Groups(a, |a.fingerprints|, groups)
    ensures forall k, l :: 0 <= k < l < |groups| ==> Below(groups[k].quickHash, groups[l].quickHash)
    ensures forall hex :: HasGroup(groups, hex) <==> Collides(db, hex) && Located(db, hex)
    ensures forall g :: g in groups ==>
              (forall row :: Selected(db, HexOf(g.quickHash), row) ==> exists rec :: rec in g.files && Shows(rec, row))
    ensures forall g :: g in groups ==>
              (forall rec :: rec in g.files ==> exists row :: Selected(db, HexOf(g.quickHash), row) && Shows(rec, row))
  {
    forall k, l | 0 <= k < l < |groups| ensures Below(groups[k].quickHash, groups[l].quickHash) {
      HexOrder(groups[k].quickHash, groups[l].quickHash);
    }
    forall hex ensures HasGroup(groups, hex) <==> Collides(db, hex) && Located(db, hex) {
      ListedIff(db, a, groups, hex);
    }
    forall g | g in groups
      ensures forall row :: Selected(db, HexOf(g.quickHash), row) ==> exists rec :: rec in g.files && Shows(rec, row)
      ensures forall rec :: rec in g.files ==> exists row :: Selected(db, HexOf(g.quickHash), row) && Shows(rec, row)
    {
      GroupShows(db, a, g, HexOf(g.quickHash));
    }
  }

  lemma ListedIff(db: Db, a: Answers, groups: seq<Group>, hex: seq<Byte>)
    requires AnswerTo(a, db) && Groups(a, |a.fingerprints|, groups)
    ensures HasGroup(groups, hex) <==> Collides(db, hex) && Located(db, hex)
  {
    if HasGroup(groups, hex) {
      var k :| 0 <= k < |groups| && HexOf(groups[k].quickHash) == hex;
      assert groups[k] in groups;
      assert a.locations(hex)[0] in a.locations(hex);
      assert hex in a.fingerprints[..|a.fingerprints|];
    }
    if Collides(db, hex) && Located(db, hex) {
      var row :| Selected(db, hex, row);
      assert row in a.locations(hex);
      assert hex in a.fingerprints;
      var k :| 0 <= k < |a.fingerprints| && a.fingerprints[k] == hex;
    }
  }

  lemma GroupShows(db: Db, a: Answers, g: Group, hex: seq<Byte>)
    requires AnswerTo(a, db) && ShowsAll(g.files, a.locations(hex))
    ensures forall row :: Selected(db, hex, row) ==> exists rec :: rec in g.files && Shows(rec, row)
    ensures forall rec :: rec in g.files ==> exists row :: Selected(db, hex, row) && Shows(rec, row)
  {
    forall row | Selected(db, hex, row) ensures exists rec :: rec in g.files && Shows(rec, row) {
      assert row in a.locations(hex);
      var i :| 0 <= i < |a.locations(hex)| && a.locations(hex)[i] == row;
      assert g.files[i] in g.files;
    }
    forall rec | rec in g.files ensures exists row :: Selected(db, hex, row) && Shows(rec, row) {
      var i :| 0 <= i < |g.files| && g.files[i] == rec;
      assert a.locations(hex)[i] in a.locations(hex);
    }
  }

  // A live location of a live file with the fingerprint, joined by content hash.
  predicate Columns(f: FileRow, l: LocationRow, hex: seq<Byte>) {
    f.quick == Some(hex) && !f.deleted && !l.deleted && f.blake3 == Some(l.blake3)
  }

  // The record gives this file and this location.
  ghost predicate Gives(rec: FileLocation, f: FileRow, l: LocationRow) {
    && rec.uuid == f.uuid && rec.size == f.size && rec.volume == l.volume && rec.path == l.path
    && rec.hash.Some? && HexOf(rec.hash.value) == l.blake3
  }

  lemma RowColumns(db: Db, hex: seq<Byte>, f: FileRow, l: LocationRow)
    ensures Selected(db, hex, JoinRow(f, l)) <==> f in db.files && l in db.locations && Columns(f, l, hex)
  {
  }

  lemma RecordColumns(rec: FileLocation, row: JoinRow, hex: seq<Byte>)
    requires Shows(rec, row) && Joins(row, hex)
    ensures Gives(rec, row.file, row.location)
  {
  }

  // The same, read off the columns: a group has a record for every such pair, and no other.
  lemma GroupColumns(db: Db, a: Answers, groups: seq<Group>, g: Group)
    requires AnswerTo(a, db) && Groups(a, |a.fingerprints|, groups) && g in groups
    ensures forall f, l :: f in db.files && l in db.locations && Columns(f, l, HexOf(g.quickHash)) ==>
              exists rec :: rec in g.files && Gives(rec, f, l)
    ensures forall rec :: rec in g.files ==>
              exists f, l :: f in db.files && l in db.locations && Columns(f, l, HexOf(g.quickHash)) && Gives(rec, f, l)
  {
    var hex := HexOf(g.quickHash);
    GroupShows(db, a, g, hex);
    forall f, l | f in db.files && l in db.locations && Columns(f, l, hex)
      ensures exists rec :: rec in g.files && Gives(rec, f, l)
    {
      PairHasRecord(db, hex, g, f, l);
    }
    forall rec | rec in g.files
      ensures exists f, l :: f in db.files && l in db.locations && Columns(f, l, hex) && Gives(rec, f, l)
    {
      RecordHasPair(db, hex, rec);
    }
  }

  lemma PairHasRecord(db: Db, hex: seq<Byte>, g: Group, f: FileRow, l: LocationRow)
    requires f in db.files && l in db.locations && Columns(f, l, hex)
    requires forall row :: Selected(db, hex, row) ==> exists rec :: rec in g.files && Shows(rec, row)
    ensures exists rec :: rec in g.files && Gives(rec, f, l)
  {
    RowColumns(db, hex, f, l);
    var rec :| rec in g.files && Shows(rec, JoinRow(f, l));
    RecordColumns(rec, JoinRow(f, l), hex);
  }

  lemma RecordHasPair(db: Db, hex: seq<Byte>, rec: FileLocation)
    requires exists row :: Selected(db, hex, row) && Shows(rec, row)
    ensures exists f, l :: f in db.files && l in db.locations && Columns(f, l, hex) && Gives(rec, f, l)
  {
    var row :| Selected(db, hex, row) && Shows(rec, row);
    RowColumns(db, hex, row.file, row.location);
    RecordColumns(rec, row, hex);
  }

  // A live file with the fingerprint that nobody marked as distinct.
  predicate Unmarked(f: FileRow, hex: seq<Byte>) {
    f.quick == Some(hex) && !f.deleted && !f.distinct
  }

  // And which fingerprints have a group: two unmarked files share it and it has such a pair.
  lemma GroupedColumns(db: Db, a: Answers, groups: seq<Group>, hex: seq<Byte>)
    requires AnswerTo(a, db) && Groups(a, |a.fingerprints|, groups)
    ensures HasGroup(groups, hex) <==>
            && (exists i, j :: 0 <= i < j < |db.files| && Unmarked(db.files[i], hex) && Unmarked(db.files[j], hex))
            && (exists f, l :: f in db.files && l in db.locations && Columns(f, l, hex))
  {
    ListedIff(db, a, groups, hex);
    assert forall f :: Unmarked(f, hex) <==> Candidate(f, hex);
    if f, l :| f in db.files && l in db.locations && Columns(f, l, hex) {
      RowColumns(db, hex, f, l);
    }
    if Located(db, hex) {
      var row :| Selected(db, hex, row);
      RowColumns(db, hex, row.file, row.location);
    }
  }

  // A location belongs to one file and so to one group.
  lemma NoLocationTwice(db: Db, hex1: seq<Byte>, hex2: seq<Byte>, row1: JoinRow, row2: JoinRow)
    requires WellKept(db) && Selected(db, hex1, row1) && Selected(db, hex2, row2)
    requires row1.location == row2.location
    ensures row1 == row2 && hex1 == hex2
  {
    var i :| 0 <= i < |db.files| && db.files[i] == row1.file;
    var j :| 0 <= j < |db.files| && db.files[j] == row2.file;
  }

  // ---------------------------------------------------------------------------
  // Marking
  // ---------------------------------------------------------------------------

  function MarkRow(f: FileRow, uuids: seq<FileUuid>): FileRow {
    if f.uuid in uuids && !f.deleted then f.(distinct := true) else f
  }

  function MarkFiles(files: seq<FileRow>, uuids: seq<FileUuid>): seq<FileRow> {
    seq(|files|, i requires 0 <= i < |files| => MarkRow(files[i], uuids))
  }

  function MarkAll(db: Db, uuids: seq<FileUuid>): Db {
    db.(files := MarkFiles(db.files, uuids))
  }

  predicate HasLive(files: seq<FileRow>, uuid: FileUuid) {
    exists i :: 0 <= i < |files| && files[i].uuid == uuid && !files[i].deleted
  }

  // The places of the first n ids that name a live row; an id listed twice has two.
  ghost function Matching(files: seq<FileRow>, uuids: seq<FileUuid>, n: nat): set<nat>
    requires n <= |uuids|
  {
    set k | 0 <= k < n && HasLive(files, uuids[k])
  }

  datatype DbError = StatementFailed | NotFound

  // The files table with its database around it.
  class FileTable {
    var db: Db

    constructor (db: Db)
      ensures this.db == db
    {
      this.db := db;
    }

    // One UPDATE per uuid, all in one transaction: on success exactly the live rows with the given
    // ids are flagged and the count is one for every listed id that names a live row; when any
    // statement fails, nothing changes.  No id, no transaction.
    method MarkVerifiedDistinct(uuids: seq<FileUuid>, beginFails: bool, fails: nat -> bool, commitFails: bool)
      returns (r: Result<nat, DbError>)
      requires UniqueUuids(db.files)
      modifies this
      ensures r.Err? <==> uuids != [] && (beginFails || commitFails || exists k :: 0 <= k < |uuids| && fails(k))
      ensures r.Ok? ==> db == MarkAll(old(db), uuids) && r.value == |Matching(old(db.files), uuids, |uuids|)|
      ensures r.Err? ==> db == old(db)
    {
      if uuids == [] {
        assert MarkFiles(db.files, []) == db.files;
        return Ok(0);
      }
      if beginFails {
        return Err(StatementFailed);
      }
      var tx, total := db.files, 0;
      assert MarkFiles(db.files, uuids[..0]) == db.files;
      for n := 0 to |uuids|
        invariant db == old(db) && forall k :: 0 <= k < n ==> !fails(k)
        invariant tx == MarkFiles(db.files, uuids[..n])
        invariant total == |Matching(db.files, uuids, n)|
      {
        if fails(n) {
          return Err(StatementFailed);
        }
        OneMoreUuid(db.files, uuids, n);
        var changed;
        tx, changed := FlagRows(tx, uuids[n]);
        total := total + changed;
      }
      if commitFails {
        return Err(StatementFailed);
      }
      assert uuids[..|uuids|] == uuids;
      db := db.(files := tx);
      return Ok(total);
    }

    // One UPDATE of the content hash.  Another row holding the new hash makes it fail; no live
    // row of the id is reported as not found; either way nothing changes.
    method PromoteFullHash(uuid: FileUuid, hash: Hash, fails: bool) returns (r: Result<(), DbError>)
      requires UniqueUuids(db.files)
      modifies this
      ensures r.Ok? <==> !fails && Promote(old(db), uuid, hash).Ok?
      ensures r.Ok? ==> Ok(db) == Promote(old(db), uuid, hash)
      ensures r.Err? && !fails ==> Err(r.error) == Promote(old(db), uuid, hash)
      ensures r.Err? ==> db == old(db)
    {
      if fails {
        return Err(StatementFailed);
      }
      var files := db.files;
      var at: nat, taken := |files|, false;
      for i := 0 to |files|
        invariant db == old(db)
        invariant at <= |files| && (at == |files| <==> !HasLive(files[..i], uuid))
        invariant at < |files| ==> at < i && files[at].uuid == uuid && !files[at].deleted
        invariant taken <==> HeldByOther(files[..i], uuid, hash)
      {
        LastRow(files, i, uuid, hash);
        if files[i].uuid == uuid && !files[i].deleted {
          at := i;
        } else if files[i].blake3 == Some(HexOf(hash)) {
          taken := true;
        }
      }
      assert files[..|files|] == files;
      if at == |files| {
        return Err(NotFound);
      }
      if taken {
        return Err(StatementFailed);
      }
      db := db.(files := files[at := files[at].(blake3 := Some(HexOf(hash)))]);
      assert db.files == PromoteFiles(old(db.files), uuid, hash);
      return Ok(());
    }
  }

  // One UPDATE: flags the live row with this id, if there is one.
  method FlagRows(files: seq<FileRow>, uuid: FileUuid) returns (flagged: seq<FileRow>, changed: nat)
    requires UniqueUuids(files)
    ensures flagged == MarkFiles(files, [uuid])
    ensures changed == if HasLive(files, uuid) then 1 else 0
  {
    flagged, changed := [], 0;
    for i := 0 to |files|
      invariant flagged == MarkFiles(files[..i], [uuid])
      invariant changed == if HasLive(files[..i], uuid) then 1 else 0
    {
      assert files[..i + 1] == files[..i] + [files[i]];
      if files[i].uuid == uuid && !files[i].deleted {
        assert files[..i + 1][i].uuid == uuid;
        flagged, changed := flagged + [files[i].(distinct := true)], changed + 1;
      } else {
        assert HasLive(files[..i], uuid) ==> HasLive(files[..i + 1], uuid) by {
          if k :| 0 <= k < i && files[..i][k].uuid == uuid && !files[..i][k].deleted {
            assert files[..i + 1][k] == files[..i][k];
          }
        }
        flagged := flagged + [files[i]];
      }
    }
    assert files[..|files|] == files;
  }

  // Marking one more id flags its row on top of those flagged, and counts it iff it names one.
  lemma OneMoreUuid(files: seq<FileRow>, uuids: seq<FileUuid>, n: nat)
    requires n < |uuids| && UniqueUuids(files)
    ensures var tx := MarkFiles(files, uuids[..n]);
            && UniqueUuids(tx) && MarkFiles(tx, [uuids[n]]) == MarkFiles(files, uuids[..n + 1])
            && (HasLive(tx, uuids[n]) <==> HasLive(files, uuids[n]))
    ensures |Matching(files, uuids, n + 1)| == |Matching(files, uuids, n)| + (if HasLive(files, uuids[n]) then 1 else 0)
  {
    var tx := MarkFiles(files, uuids[..n]);
    assert forall u :: u in uuids[..n + 1] <==> u in uuids[..n] || u == uuids[n];
    assert MarkFiles(tx, [uuids[n]]) == MarkFiles(files, uuids[..n + 1]);
    MarkingKeepsLive(files, uuids[..n], uuids[n]);
    OneMoreMatch(files, uuids, n);
  }

  lemma MarkingKeepsLive(files: seq<FileRow>, uuids: seq<FileUuid>, u: FileUuid)
    ensures HasLive(MarkFiles(files, uuids), u) <==> HasLive(files, u)
  {
    var tx := MarkFiles(files, uuids);
    assert forall i :: 0 <= i < |files| ==> tx[i].uuid == files[i].uuid && tx[i].deleted == files[i].deleted;
    if i :| 0 <= i < |files| && files[i].uuid == u && !files[i].deleted {
      assert tx[i].uuid == u;
    }
  }

  lemma OneMoreMatch(files: seq<FileRow>, uuids: seq<FileUuid>, n: nat)
    requires n < |uuids|
    ensures |Matching(files, uuids, n + 1)| == |Matching(files, uuids, n)| + (if HasLive(files, uuids[n]) then 1 else 0)
  {
    var before, after := Matching(files, uuids, n), Matching(files, uuids, n + 1);
    assert n !in before;
    if HasLive(files, uuids[n]) {
      assert after == before + {n};
    } else {
      assert after == before;
    }
  }

  // Marking only removes groups: what stays listed was listed, with the same locations; and a
  // fingerprint stays exactly when two of its files remain unmarked.
  lemma MarkingOnlyRemoves(db: Db, uuids: seq<FileUuid>, hex: seq<Byte>)
    ensures Collides(MarkAll(db, uuids), hex) <==>
            exists i, j :: 0 <= i < j < |db.files| && Candidate(db.files[i], hex) && Candidate(db.files[j], hex)
                           && db.files[i].uuid !in uuids && db.files[j].uuid !in uuids
    ensures Collides(MarkAll(db, uuids), hex) ==> Collides(db, hex)
    ensures Located(MarkAll(db, uuids), hex) <==> Located(db, hex)
    ensures forall row :: Selected(db, hex, row) ==>
              Selected(MarkAll(db, uuids), hex, row.(file := MarkRow(row.file, uuids)))
    ensures forall row, rec :: Shows(rec, row) <==> Shows(rec, row.(file := MarkRow(row.file, uuids)))
  {
    CollidesAfterMarking(db, uuids, hex);
    LocatedAfterMarking(db, uuids, hex);
  }

  lemma CollidesAfterMarking(db: Db, uuids: seq<FileUuid>, hex: seq<Byte>)
    ensures Collides(MarkAll(db, uuids), hex) <==>
            exists i, j :: 0 <= i < j < |db.files| && Candidate(db.files[i], hex) && Candidate(db.files[j], hex)
                           && db.files[i].uuid !in uuids && db.files[j].uuid !in uuids
  {
    var db' := MarkAll(db, uuids);
    if Collides(db', hex) {
      var i, j :| 0 <= i < j < |db'.files| && Candidate(db'.files[i], hex) && Candidate(db'.files[j], hex);
      assert Candidate(db.files[i], hex) && Candidate(db.files[j], hex);
    }
    if i, j :| 0 <= i < j < |db.files| && Candidate(db.files[i], hex) && Candidate(db.files[j], hex)
               && db.files[i].uuid !in uuids && db.files[j].uuid !in uuids {
      assert Candidate(db'.files[i], hex) && Candidate(db'.files[j], hex);
    }
  }

  lemma LocatedAfterMarking(db: Db, uuids: seq<FileUuid>, hex: seq<Byte>)
    ensures Located(MarkAll(db, uuids), hex) <==> Located(db, hex)
    ensures forall row :: Selected(db, hex, row) ==>
              Selected(MarkAll(db, uuids), hex, row.(file := MarkRow(row.file, uuids)))
  {
    var db' := MarkAll(db, uuids);
    forall row | Selected(db, hex, row) ensures Selected(db', hex, row.(file := MarkRow(row.file, uuids))) {
      var i :| 0 <= i < |db.files| && db.files[i] == row.file;
      assert db'.files[i] in db'.files;
    }
    if Located(db', hex) {
      var row :| Selected(db', hex, row);
      var i :| 0 <= i < |db'.files| && db'.files[i] == row.file;
      assert Selected(db, hex, row.(file := db.files[i]));
    }
  }

  // The query's own description: a fingerprint shared by two live files, at least one unmarked.
  ghost predicate DocumentedRule(db: Db, hex: seq<Byte>) {
    && TwoLive(db, hex)
    && (exists i :: 0 <= i < |db.files| && Candidate(db.files[i], hex))
  }

  ghost predicate TwoLive(db: Db, hex: seq<Byte>) {
    exists i, j :: 0 <= i < j < |db.files| && Live(db.files[i], hex) && Live(db.files[j], hex)
  }

  ghost predicate OneUnmarked(db: Db, hex: seq<Byte>) {
    exists i :: 0 <= i < |db.files| && Candidate(db.files[i], hex)
                && forall j :: 0 <= j < |db.files| && j != i ==> !Candidate(db.files[j], hex)
  }

  // The statement asks for two unmarked files.  It departs from its description exactly when one
  // file alone is left unmarked among several, and then by not listing the fingerprint.
  lemma RuleDiffersIff(db: Db, hex: seq<Byte>)
    ensures Collides(db, hex) ==> DocumentedRule(db, hex)
    ensures DocumentedRule(db, hex) && !Collides(db, hex) <==>
            OneUnmarked(db, hex) && TwoLive(db, hex)
  {
  }

  // --- a small library: two files of one fingerprint, each with a live location ---

  function Filled(b: Byte): (h: Hash)
    ensures h[0] == b
  {
    seq(HASH_LEN, i => b)
  }

  function Twins(marked: bool): Db {
    Db([FileRow(1, Some(HexOf(Filled(1))), Some(HexOf(Filled(0))), 200000, false, false),
        FileRow(2, Some(HexOf(Filled(2))), Some(HexOf(Filled(0))), 200000, false, marked)],
       [LocationRow(1, HexOf(Filled(1)), 1, "a.jpg", "active", false),
        LocationRow(2, HexOf(Filled(2)), 1, "b.jpg", "active", false)])
  }

  lemma TwinsWellKept(marked: bool)
    ensures var db, hex := Twins(marked), HexOf(Filled(0));
            && WellKept(db) && IsHexForm(hex)
            && Live(db.files[0], hex) && Live(db.files[1], hex)
            && Selected(db, hex, JoinRow(db.files[0], db.locations[0]))
            && Selected(db, hex, JoinRow(db.files[1], db.locations[1]))
            && Parses(JoinRow(db.files[0], db.locations[0])) && Parses(JoinRow(db.files[1], db.locations[1]))
  {
    var db := Twins(marked);
    assert Filled(1) != Filled(2);
    HexInjective(Filled(1), Filled(2));
    assert Shows(FileLocation(1, Some(Filled(1)), 200000, 1, "a.jpg", Active), JoinRow(db.files[0], db.locations[0]));
    assert Shows(FileLocation(2, Some(Filled(2)), 200000, 1, "b.jpg", Active), JoinRow(db.files[1], db.locations[1]));
  }

  // With one of the two marked, the fingerprint meets the description and has well-formed live
  // locations, and is not listed all the same.
  lemma OneUnmarkedIsNotEnough() returns (db: Db, hex: seq<Byte>)
    ensures WellKept(db) && IsHexForm(hex) && Located(db, hex)
    ensures forall row :: Selected(db, hex, row) ==> Parses(row)
    ensures DocumentedRule(db, hex) && !Collides(db, hex)
  {
    db, hex := Twins(true), HexOf(Filled(0));
    TwinsWellKept(true);
    assert Candidate(db.files[0], hex);
    assert Filled(1) != Filled(2);
    HexInjective(Filled(1), Filled(2));
  }

  // ---------------------------------------------------------------------------
  // Promotion
  // ---------------------------------------------------------------------------

  // `promote_full_hash` rewrites the content hash of a live file row and nothing else.
  function PromoteRow(f: FileRow, uuid: FileUuid, hash: Hash): FileRow {
    if f.uuid == uuid && !f.deleted then f.(blake3 := Some(HexOf(hash))) else f
  }

  function PromoteFiles(files: seq<FileRow>, uuid: FileUuid, hash: Hash): seq<FileRow> {
    seq(|files|, i requires 0 <= i < |files| => PromoteRow(files[i], uuid, hash))
  }

  // A row the statement leaves alone already has the hash, which is the table's primary key.
  predicate HeldByOther(files: seq<FileRow>, uuid: FileUuid, hash: Hash) {
    exists i :: 0 <= i < |files| && !(files[i].uuid == uuid && !files[i].deleted) && files[i].blake3 == Some(HexOf(hash))
  }

  function Promote(db: Db, uuid: FileUuid, hash: Hash): Result<Db, DbError> {
    if !HasLive(db.files, uuid) then Err(NotFound)
    else if HeldByOther(db.files, uuid, hash) then Err(StatementFailed)
    else Ok(db.(files := PromoteFiles(db.files, uuid, hash)))
  }

  lemma LastRow(files: seq<FileRow>, i: nat, uuid: FileUuid, hash: Hash)
    requires i < |files|
    ensures HasLive(files[..i + 1], uuid) <==> HasLive(files[..i], uuid) || (files[i].uuid == uuid && !files[i].deleted)
    ensures HeldByOther(files[..i + 1], uuid, hash) <==>
            HeldByOther(files[..i], uuid, hash)
            || (!(files[i].uuid == uuid && !files[i].deleted) && files[i].blake3 == Some(HexOf(hash)))
  {
    var before, after := files[..i], files[..i + 1];
    assert forall k :: 0 <= k < i ==> after[k] == before[k];
    assert after[i] == files[i];
  }

  // A promotion keeps the keys of a well-kept database, and is refused exactly when it would not.
  lemma PromotionKeepsKeys(db: Db, uuid: FileUuid, hash: Hash)
    requires WellKept(db) && HasLive(db.files, uuid)
    ensures Promote(db, uuid, hash).Ok? <==> WellKept(db.(files := PromoteFiles(db.files, uuid, hash)))
  {
    var files' := PromoteFiles(db.files, uuid, hash);
    var t :| 0 <= t < |db.files| && db.files[t].uuid == uuid && !db.files[t].deleted;
    assert forall i :: 0 <= i < |db.files| && i != t ==> files'[i] == db.files[i];
    if i :| 0 <= i < |db.files| && !(db.files[i].uuid == uuid && !db.files[i].deleted)
            && db.files[i].blake3 == Some(HexOf(hash)) {
      assert files'[i].blake3 == files'[t].blake3;
    }
  }

  // Locations are matched by content hash and promotion leaves them alone, so of a promoted
  // file exactly the locations already filed under the new hash are still found; if that is
  // none, the file has dropped out of its collision group.
  lemma PromotionKeepsOnlyRefiled(db: Db, uuid: FileUuid, hash: Hash, i: nat, l: LocationRow, hex: seq<Byte>)
    requires WellKept(db) && Promote(db, uuid, hash).Ok?
    requires i < |db.files| && db.files[i].uuid == uuid && Live(db.files[i], hex)
    requires l in db.locations && !l.deleted
    ensures var db' := Promote(db, uuid, hash).value;
            && WellKept(db')
            && (Selected(db', hex, JoinRow(db'.files[i], l)) <==> l.blake3 == HexOf(hash))
            && (Collides(db', hex) <==> Collides(db, hex))
    ensures (forall loc :: loc in db.locations && !loc.deleted ==> loc.blake3 != HexOf(hash)) ==>
              forall row :: Selected(Promote(db, uuid, hash).value, hex, row) ==> row.file.uuid != uuid
  {
    var db' := Promote(db, uuid, hash).value;
    assert db'.files[i] in db'.files;
    PromotionKeepsKeys(db, uuid, hash);
    assert forall k :: 0 <= k < |db.files| ==> (Candidate(db'.files[k], hex) <==> Candidate(db.files[k], hex));
  }

  lemma TwinPromotes()
    ensures Promote(Twins(false), 1, Filled(3)).Ok?
    ensures forall loc :: loc in Twins(false).locations ==> loc.blake3 != HexOf(Filled(3))
  {
    var db := Twins(false);
    assert Filled(1) != Filled(3) && Filled(2) != Filled(3);
    HexInjective(Filled(1), Filled(3));
    HexInjective(Filled(2), Filled(3));
    assert db.files[0].uuid == 1;
  }

  // Both twins are listed; promoting the first leaves a group that shows the second alone.
  lemma PromotionCanDropFile() returns (db: Db, db': Db, hex: seq<Byte>)
    ensures WellKept(db) && Promote(db, 1, Filled(3)) == Ok(db') && WellKept(db')
    ensures Collides(db, hex) && Collides(db', hex)
    ensures exists row :: Selected(db, hex, row) && row.file.uuid == 1
    ensures exists row :: Selected(db', hex, row) && row.file.uuid == 2
    ensures forall row :: Selected(db', hex, row) ==> row.file.uuid != 1
  {
    db, hex := Twins(false), HexOf(Filled(0));
    TwinsWellKept(false);
    TwinPromotes();
    db' := Promote(db, 1, Filled(3)).value;
    PromotionKeepsOnlyRefiled(db, 1, Filled(3), 0, db.locations[0], hex);
    assert Candidate(db.files[0], hex) && Candidate(db.files[1], hex);
    assert Selected(db, hex, JoinRow(db.files[0], db.locations[0]));
    assert db'.files[1] == db.files[1] && db'.locations == db.locations;
    assert Selected(db', hex, JoinRow(db'.files[1], db'.locations[1]));
  }

  // When a promotion is refused, and as what.
  lemma PromotionRefusals(db: Db, uuid: FileUuid, hash: Hash)
    ensures Promote(db, uuid, hash) == Err(NotFound) <==> forall f :: f in db.files && f.uuid == uuid ==> f.deleted
    ensures Promote(db, uuid, hash) == Err(StatementFailed) <==>
            && (exists f :: f in db.files && f.uuid == uuid && !f.deleted)
            && (exists f :: f in db.files && (f.uuid != uuid || f.deleted) && f.blake3 == Some(HexOf(hash)))
  {
    if f :| f in db.files && f.uuid == uuid && !f.deleted {
      var i :| 0 <= i < |db.files| && db.files[i] == f;
    }
    if f :| f in db.files && (f.uuid != uuid || f.deleted) && f.blake3 == Some(HexOf(hash)) {
      var i :| 0 <= i < |db.files| && db.files[i] == f;
    }
  }

  // A promotion changes the content hash of the one live row with the id, and nothing else.
  lemma PromotionFrame(db: Db, uuid: FileUuid, hash: Hash, i: nat)
    requires Promote(db, uuid, hash).Ok? && i < |db.files|
    ensures var db' := Promote(db, uuid, hash).value;
            && db'.locations == db.locations && |db'.files| == |db.files|
            && (db.files[i].uuid != uuid || db.files[i].deleted ==> db'.files[i] == db.files[i])
            && (db.files[i].uuid == uuid && !db.files[i].deleted ==>
                  db'.files[i] == db.files[i].(blake3 := Some(HexOf(hash))))
  {
  }
}
