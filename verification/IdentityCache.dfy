/**
 The device-local identity cache: a table with tombstones and no uniqueness constraint, whose
 live rows behave as a map from file snapshots to hashes.
 */
module IdentityCache {
  import opened Prelude
  import opened Hex

  datatype CacheKey = CacheKey(device: nat, volume: nat, fsFileId: int, sizeBytes: nat, mtimeNs: int)
  datatype CacheEntry = CacheEntry(quick: Hash, full: Option<Hash>)

  // Hashes are stored as hex text.
  datatype Row = Row(id: nat, key: CacheKey, quickHex: seq<Byte>, fullHex: Option<seq<Byte>>, deleted: bool)

  datatype CacheError = Unavailable | SizeOverflow | Corrupt

  ghost predicate Stores(row: Row, entry: CacheEntry) {
    && row.quickHex == HexOf(entry.quick)
    && (row.fullHex.Some? <==> entry.full.Some?)
    && (row.fullHex.Some? ==> row.fullHex.value == HexOf(entry.full.value))
  }

  predicate LiveFor(row: Row, key: CacheKey) {
    row.key == key && !row.deleted
  }

  // The live rows of a table are a map: one row per key, holding that key's entry.
  ghost predicate Represents(rows: seq<Row>, entries: map<CacheKey, CacheEntry>) {
    && (forall i, j :: 0 <= i < j < |rows| && !rows[i].deleted && !rows[j].deleted ==> rows[i].key != rows[j].key)
    && (forall i :: 0 <= i < |rows| && !rows[i].deleted ==>
          rows[i].key in entries && Stores(rows[i], entries[rows[i].key]))
    && (forall key :: key in entries ==> HasLive(rows, key))
  }

  ghost predicate HasLive(rows: seq<Row>, key: CacheKey) {
    exists i :: 0 <= i < |rows| && LiveFor(rows[i], key)
  }

  // Inserting for an absent key, rewriting a live row, and burying a live row are the map's
  // insertion, update and removal.
  lemma InsertRepresents(rows: seq<Row>, entries: map<CacheKey, CacheEntry>, row: Row, entry: CacheEntry)
    requires Represents(rows, entries) && !row.deleted && row.key !in entries && Stores(row, entry)
    ensures Represents(rows + [row], entries[row.key := entry])
  {
    var rows', entries' := rows + [row], entries[row.key := entry];
    forall key | key in entries' ensures HasLive(rows', key) {
      if key == row.key {
        assert LiveFor(rows'[|rows|], key);
      } else {
        var i :| 0 <= i < |rows| && LiveFor(rows[i], key);
        assert LiveFor(rows'[i], key);
      }
    }
  }

  lemma RewriteRepresents(rows: seq<Row>, entries: map<CacheKey, CacheEntry>, at: nat, row: Row, entry: CacheEntry)
    requires Represents(rows, entries) && at < |rows| && LiveFor(rows[at], row.key)
    requires !row.deleted && Stores(row, entry)
    ensures Represents(rows[at := row], entries[row.key := entry])
  {
    var rows', entries' := rows[at := row], entries[row.key := entry];
    forall key | key in entries' ensures HasLive(rows', key) {
      var i :| 0 <= i < |rows| && LiveFor(rows[i], key);
      assert LiveFor(rows'[i], key);
    }
  }

  lemma BuryRepresents(rows: seq<Row>, entries: map<CacheKey, CacheEntry>, at: nat)
    requires Represents(rows, entries) && at < |rows| && !rows[at].deleted
    ensures Represents(rows[at := rows[at].(deleted := true)], entries - {rows[at].key})
  {
    var rows' := rows[at := rows[at].(deleted := true)];
    forall key | key in entries && key != rows[at].key ensures HasLive(rows', key) {
      var i :| 0 <= i < |rows| && LiveFor(rows[i], key);
      assert LiveFor(rows'[i], key);
    }
  }

  // Row ids are unique and the next one is unused.
  ghost predicate FreshIds(rows: seq<Row>, nextId: nat) {
    && (forall i :: 0 <= i < |rows| ==> rows[i].id < nextId)
    && (forall i, j :: 0 <= i < j < |rows| ==> rows[i].id != rows[j].id)
  }

  class CacheTable {
    var rows: seq<Row>
    var nextId: nat
    ghost var entries: map<CacheKey, CacheEntry>   // what the live rows say

    ghost predicate Valid()
      reads this
    {
      FreshIds(rows, nextId) && Represents(rows, entries)
    }

    constructor ()
      ensures Valid() && rows == [] && entries == map[]
    {
      rows, nextId, entries := [], 0, map[];
    }

    // The row a query with LIMIT 1 returns; there is never a second candidate.
    method FindLive(key: CacheKey) returns (at: Option<nat>)
      requires Valid()
      ensures at.Some? <==> key in entries
      ensures at.Some? ==>
                && at.value < |rows| && LiveFor(rows[at.value], key)
                && forall j :: 0 <= j < |rows| && LiveFor(rows[j], key) ==> j == at.value
    {
      for i := 0 to |rows|
        invariant forall j :: 0 <= j < i ==> !LiveFor(rows[j], key)
      {
        if LiveFor(rows[i], key) {
          return Some(i);
        }
      }
      return None;
    }

    // `down` is the caller's bad luck: no pooled connection, or the writer is gone.
    method Lookup(key: CacheKey, down: bool) returns (r: Result<Option<CacheEntry>, CacheError>)
      requires Valid()
      ensures r.Err? <==> down || key.sizeBytes > 0x7FFF_FFFF_FFFF_FFFF
      ensures r.Err? ==> r.error == if down then Unavailable else SizeOverflow
      ensures r.Ok? ==> r.value == if key in entries then Some(entries[key]) else None
    {
      if down {
        return Err(Unavailable);
      }
      if key.sizeBytes > I64_MAX {
        return Err(SizeOverflow);
      }
      var at := FindLive(key);
      if at.None? {
        return Ok(None);
      }
      var row := rows[at.value];
      r := ParseRow(row, entries[key]);
    }

    static method ParseRow(row: Row, ghost entry: CacheEntry) returns (r: Result<Option<CacheEntry>, CacheError>)
      requires Stores(row, entry)
      ensures r == Ok(Some(entry))
    {
      assert IsHexForm(HexOf(entry.quick)) && (entry.full.Some? ==> IsHexForm(HexOf(entry.full.value)));
      var quick := ParseHex(row.quickHex);
      if quick.Err? {
        assert false;
        return Err(Corrupt);
      }
      HexInjective(quick.value, entry.quick);
      if row.fullHex.None? {
        return Ok(Some(CacheEntry(quick.value, None)));
      }
      var full := ParseHex(row.fullHex.value);
      if full.Err? {
        assert false;
        return Err(Corrupt);
      }
      HexInjective(full.value, entry.full.value);
      return Ok(Some(CacheEntry(quick.value, Some(full.value))));
    }

    static method ToHexOption(h: Option<Hash>) returns (hex: Option<seq<Byte>>)
      ensures hex == if h.Some? then Some(HexOf(h.value)) else None
    {
      if h.None? {
        return None;
      }
      var s := ToHex(h.value);
      return Some(s);
    }

    // Select-then-insert-or-update in one transaction.
    method Upsert(key: CacheKey, entry: CacheEntry, down: bool) returns (r: Result<(), CacheError>)
      requires Valid()
      modifies this
      ensures Valid()
      ensures r.Err? <==> down || key.sizeBytes > 0x7FFF_FFFF_FFFF_FFFF
      ensures r.Err? ==> r.error == if down then Unavailable else SizeOverflow
      ensures r.Err? ==> rows == old(rows) && entries == old(entries)
      ensures r.Ok? ==> entries == old(entries)[key := entry]
      ensures |rows| == |old(rows)| + (if r.Ok? && key !in old(entries) then 1 else 0)
    {
      if down {
        return Err(Unavailable);
      }
      if key.sizeBytes > I64_MAX {
        return Err(SizeOverflow);
      }
      var quickHex := ToHex(entry.quick);
      var fullHex := ToHexOption(entry.full);
      var at := FindLive(key);
      if at.None? {
        var row := Row(nextId, key, quickHex, fullHex, false);
        InsertRepresents(rows, entries, row, entry);
        rows, nextId := rows + [row], nextId + 1;
      } else {
        var row := rows[at.value].(quickHex := quickHex, fullHex := fullHex);
        RewriteRepresents(rows, entries, at.value, row, entry);
        rows := rows[at.value := row];
      }
      entries := entries[key := entry];
      return Ok(());
    }

    // Marks the live row, if any; the tombstone stays in the table.
    method SoftDelete(key: CacheKey, down: bool) returns (r: Result<(), CacheError>)
      requires Valid()
      modifies this
      ensures Valid()
      ensures r.Err? <==> down || key.sizeBytes > 0x7FFF_FFFF_FFFF_FFFF
      ensures r.Err? ==> r.error == if down then Unavailable else SizeOverflow
      ensures r.Err? ==> rows == old(rows) && entries == old(entries)
      ensures r.Ok? ==> entries == old(entries) - {key}
      ensures |rows| == |old(rows)| && forall i :: 0 <= i < |rows| ==> rows[i].id == old(rows)[i].id
    {
      if down {
        return Err(Unavailable);
      }
      if key.sizeBytes > I64_MAX {
        return Err(SizeOverflow);
      }
      var at := FindLive(key);
      if at.Some? {
        BuryRepresents(rows, entries, at.value);
        rows := rows[at.value := rows[at.value].(deleted := true)];
      }
      entries := entries - {key};
      return Ok(());
    }
  }
}
