/**
 Resolving walked files to hashes through the identity cache: a sequential lookup phase, a
 parallel hashing phase over the misses, and a sequential store phase.
 */
module ScanResolve {
  import opened Prelude
  import opened Hex
  import opened StreamingHash
  import opened IdentityCache

  type Path = nat
  datatype DiscoveredFile = DiscoveredFile(path: Path, relativePath: string, size: nat)
  datatype FileStat = FileStat(fsFileId: int, sizeBytes: nat, mtimeNs: int)

  // A file system that does not change during the scans considered.
  datatype Snapshot = Snapshot(stat: Path -> FileStat, content: Path -> seq<Byte>, digest: Digest)

  // The device and volume being scanned.
  datatype Place = Place(device: nat, volume: nat)

  // Everything that may go wrong for the i-th walked file; `cancelAt` is the first file at which
  // the lookup loop sees the token fired, `lateCancel` what each hashing task sees.
  datatype Luck = Luck(
    cancelAt: nat,
    stat: nat -> bool,
    lookup: nat -> bool,
    lateCancel: nat -> bool,
    hash: nat -> bool,
    upsert: nat -> bool)

  datatype ScanError = Cancelled | StatFailed | HashFailed
  datatype Resolved = Resolved(file: DiscoveredFile, hash: Hash, quick: Option<Hash>)
  type ResolveEntry = Result<Resolved, ScanError>

  // The Tier-0 key of a file on a volume.
  function MakeCacheKey(at: Place, stat: FileStat): CacheKey {
    CacheKey(at.device, at.volume, stat.fsFileId, stat.sizeBytes, stat.mtimeNs)
  }

  function CachedHash(entry: CacheEntry): Hash {
    if entry.full.Some? then entry.full.value else entry.quick
  }

  // One call of `resolve_with_cache`: what it is given and what goes wrong on the way.
  datatype Pass = Pass(
    world: Snapshot, at: Place, entries: map<CacheKey, CacheEntry>, files: seq<DiscoveredFile>, luck: Luck)
  {
    function Key(i: nat): CacheKey
      requires i < |files|
    {
      MakeCacheKey(at, world.stat(files[i].path))
    }

    // The lookup of file i answers with an entry.
    predicate Found(i: nat)
      requires i < |files|
    {
      !luck.lookup(i) && Key(i).sizeBytes <= I64_MAX && Key(i) in entries
    }

    // File i goes on to the hashing phase.
    predicate Missed(i: nat)
      requires i < |files|
    {
      i < luck.cancelAt && !luck.stat(i) && !Found(i)
    }

    // `quick_hash_prefix_suffix` of file i, told its size at walk time.
    function HashTask(i: nat): Result<Hash, ScanError>
      requires i < |files|
    {
      var covered := CoveredBytes(world.content(files[i].path), files[i].size);
      if luck.lateCancel(i) then Err(Cancelled)
      else if luck.hash(i) || covered.None? then Err(HashFailed)
      else Ok(world.digest(covered.value))
    }

    // What file i resolves to, looked at on its own.
    function Outcome(i: nat): ResolveEntry
      requires i < |files|
    {
      if i >= luck.cancelAt then Err(Cancelled)
      else if luck.stat(i) then Err(StatFailed)
      else if Found(i) then Ok(Resolved(files[i], CachedHash(entries[Key(i)]), Some(entries[Key(i)].quick)))
      else
        match HashTask(i)
        case Err(e) => Err(e)
        case Ok(h) => Ok(Resolved(files[i], h, Some(h)))
    }

    // A freshly hashed file whose hash reaches the cache.
    predicate Stored(i: nat)
      requires i < |files|
    {
      Missed(i) && HashTask(i).Ok? && !luck.upsert(i) && Key(i).sizeBytes <= I64_MAX
    }

    // The files that miss (or do not), in walk order, among the first n.
    function Picked(missed: bool, n: nat): (idx: seq<nat>)
      requires n <= |files|
      ensures forall j :: 0 <= j < |idx| ==> idx[j] < n && Missed(idx[j]) == missed
    {
      if n == 0 then []
      else Picked(missed, n - 1) + (if Missed(n - 1) == missed then [n - 1] else [])
    }

    predicate InRange(idx: seq<nat>) {
      forall j :: 0 <= j < |idx| ==> idx[j] < |files|
    }

    function OutcomesAt(idx: seq<nat>): (r: seq<ResolveEntry>)
      requires InRange(idx)
    {
      seq(|idx|, j requires 0 <= j < |idx| => Outcome(idx[j]))
    }

    // Everything `resolve_with_cache` returns.
    function Results(): seq<ResolveEntry> {
      OutcomesAt(Picked(false, |files|)) + OutcomesAt(Picked(true, |files|))
    }

    // The cache after the given misses were stored, in that order.
    function CacheAfter(idx: seq<nat>): map<CacheKey, CacheEntry>
      requires InRange(idx)
    {
      if idx == [] then entries
      else
        var i, before := idx[|idx| - 1], CacheAfter(idx[..|idx| - 1]);
        if Stored(i) then before[Key(i) := CacheEntry(HashTask(i).value, None)] else before
    }

    function FinalCache(): map<CacheKey, CacheEntry> {
      CacheAfter(Picked(true, |files|))
    }

    // Calls made to the hasher for the given misses.
    function HashCalls(idx: seq<nat>): nat {
      if idx == [] then 0
      else HashCalls(idx[..|idx| - 1]) + (if luck.lateCancel(idx[|idx| - 1]) then 0 else 1)
    }
  }

  // ---------------------------------------------------------------------------
  // The three-phase procedure
  // ---------------------------------------------------------------------------

  datatype Miss = Miss(index: nat, key: CacheKey)

  // `p.entries` is the cache as the pass finds it.  `hashed` counts the calls to the hasher.
  method ResolveWithCache(p: Pass, cache: CacheTable) returns (results: seq<ResolveEntry>, hashed: nat)
    requires cache.Valid() && cache.entries == p.entries
    modifies cache
    ensures cache.Valid() && cache.entries == p.FinalCache()
    ensures results == p.Results()
    ensures hashed == p.HashCalls(p.Picked(true, |p.files|))
  {
    var misses;
    results, misses := LookupPhase(p, cache);
    var hashes;
    hashes, hashed := HashPhase(p, misses);
    var late := StorePhase(p, misses, hashes, cache);
    results := results + late;
  }

  predicate Lists(p: Pass, misses: seq<Miss>, idx: seq<nat>) {
    && |misses| == |idx| && p.InRange(idx)
    && forall j :: 0 <= j < |idx| ==> misses[j] == Miss(idx[j], p.Key(idx[j]))
  }

  method LookupPhase(p: Pass, cache: CacheTable) returns (results: seq<ResolveEntry>, misses: seq<Miss>)
    requires cache.Valid() && cache.entries == p.entries
    ensures results == p.OutcomesAt(p.Picked(false, |p.files|))
    ensures Lists(p, misses, p.Picked(true, |p.files|))
  {
    results, misses := [], [];
    for i := 0 to |p.files|
      invariant results == p.OutcomesAt(p.Picked(false, i))
      invariant Lists(p, misses, p.Picked(true, i))
    {
      if i >= p.luck.cancelAt {
        results := results + [Err(Cancelled)];
        continue;
      }
      if p.luck.stat(i) {
        results := results + [Err(StatFailed)];
        continue;
      }
      var key := MakeCacheKey(p.at, p.world.stat(p.files[i].path));
      var answer := cache.Lookup(key, p.luck.lookup(i));
      if answer.Ok? && answer.value.Some? {
        var entry := answer.value.value;
        results := results + [Ok(Resolved(p.files[i], CachedHash(entry), Some(entry.quick)))];
      } else {
        misses := misses + [Miss(i, key)];
      }
    }
  }

  // The order-preserving parallel map over the misses.
  method HashPhase(p: Pass, misses: seq<Miss>)
    returns (hashes: seq<Result<Hash, ScanError>>, hashed: nat)
    requires Lists(p, misses, p.Picked(true, |p.files|))
    ensures |hashes| == |misses|
    ensures forall j :: 0 <= j < |misses| ==> hashes[j] == p.HashTask(p.Picked(true, |p.files|)[j])
    ensures hashed == p.HashCalls(p.Picked(true, |p.files|))
  {
    ghost var idx := p.Picked(true, |p.files|);
    hashes, hashed := [], 0;
    for j := 0 to |misses|
      invariant |hashes| == j
      invariant forall t :: 0 <= t < j ==> hashes[t] == p.HashTask(idx[t])
      invariant hashed == p.HashCalls(idx[..j])
    {
      var i := misses[j].index;
      PrefixStep(p, idx, j);
      if !p.luck.lateCancel(i) {
        hashed := hashed + 1;
      }
      hashes := hashes + [p.HashTask(i)];
    }
    assert idx[..|idx|] == idx;
  }

  lemma PrefixStep(p: Pass, idx: seq<nat>, j: nat)
    requires p.InRange(idx) && j < |idx|
    ensures p.InRange(idx[..j]) && p.InRange(idx[..j + 1])
    ensures p.OutcomesAt(idx[..j + 1]) == p.OutcomesAt(idx[..j]) + [p.Outcome(idx[j])]
    ensures p.CacheAfter(idx[..j + 1]) ==
            (if p.Stored(idx[j]) then p.CacheAfter(idx[..j])[p.Key(idx[j]) := CacheEntry(p.HashTask(idx[j]).value, None)]
             else p.CacheAfter(idx[..j]))
    ensures p.HashCalls(idx[..j + 1]) == p.HashCalls(idx[..j]) + (if p.luck.lateCancel(idx[j]) then 0 else 1)
  {
    assert idx[..j + 1][..j] == idx[..j] && idx[..j + 1][j] == idx[j];
  }

  method StorePhase(p: Pass, misses: seq<Miss>, hashes: seq<Result<Hash, ScanError>>, cache: CacheTable)
    returns (results: seq<ResolveEntry>)
    requires cache.Valid() && cache.entries == p.entries
    requires Lists(p, misses, p.Picked(true, |p.files|)) && |hashes| == |misses|
    requires forall j :: 0 <= j < |misses| ==> hashes[j] == p.HashTask(p.Picked(true, |p.files|)[j])
    modifies cache
    ensures cache.Valid() && cache.entries == p.FinalCache()
    ensures results == p.OutcomesAt(p.Picked(true, |p.files|))
  {
    ghost var idx := p.Picked(true, |p.files|);
    results := [];
    for j := 0 to |misses|
      invariant cache.Valid() && p.InRange(idx[..j])
      invariant cache.entries == p.CacheAfter(idx[..j])
      invariant results == p.OutcomesAt(idx[..j])
    {
      var i := misses[j].index;
      PrefixStep(p, idx, j);
      match hashes[j] {
        case Ok(h) =>
          var stored := cache.Upsert(misses[j].key, CacheEntry(h, None), p.luck.upsert(i));
          results := results + [Ok(Resolved(p.files[i], h, Some(h)))];
        case Err(e) =>
          results := results + [Err(e)];
      }
    }
    assert idx[..|idx|] == idx;
  }
}
