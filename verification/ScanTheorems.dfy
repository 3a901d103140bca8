/**
 Resolving through the cache agrees with hashing every file, keeps the cache sound under any
 failures, and makes an unchanged rescan free of hashing.
 */
module ScanTheorems {
  import opened Prelude
  import opened Hex
  import opened StreamingHash
  import opened IdentityCache
  import opened ScanResolve

  function TrueQuick(w: Snapshot, f: Path): Hash {
    w.digest(FingerprintBytes(w.content(f)))
  }

  function TrueFull(w: Snapshot, f: Path): Hash {
    w.digest(w.content(f))
  }

  // The stat triple identifies the content, which is what the cache key is for.
  ghost predicate KeyDeterminesContent(w: Snapshot) {
    forall f, g :: w.stat(f) == w.stat(g) ==> w.content(f) == w.content(g)
  }

  // Every live entry tells the truth about the files it is for.
  ghost predicate SoundFor(w: Snapshot, entry: CacheEntry, f: Path) {
    entry.quick == TrueQuick(w, f) && (entry.full.Some? ==> entry.full.value == TrueFull(w, f))
  }

  ghost predicate SoundCache(w: Snapshot, at: Place, entries: map<CacheKey, CacheEntry>) {
    forall f :: MakeCacheKey(at, w.stat(f)) in entries ==> SoundFor(w, entries[MakeCacheKey(at, w.stat(f))], f)
  }

  // The walk saw the true sizes.
  ghost predicate Measured(p: Pass) {
    forall i :: 0 <= i < |p.files| ==> p.files[i].size == |p.world.content(p.files[i].path)| <= U64_MAX
  }

  lemma HashTaskIsTrue(p: Pass, i: nat)
    requires Measured(p) && i < |p.files|
    ensures p.HashTask(i).Ok? <==> !p.luck.lateCancel(i) && !p.luck.hash(i)
    ensures p.HashTask(i).Ok? ==> p.HashTask(i).value == TrueQuick(p.world, p.files[i].path)
  {
    DeclaredSizeExact(p.world.content(p.files[i].path), p.files[i].size);
  }

  // The fingerprint task of a file whose size may have changed since the walk: up to 128 KiB by
  // walk-time size it covers all the bytes now there, beyond that the first and last 64 KiB.
  lemma HashTaskCovers(p: Pass, i: nat)
    requires i < |p.files| && |p.world.content(p.files[i].path)| <= U64_MAX
    ensures var f, content := p.files[i], p.world.content(p.files[i].path);
            && (p.HashTask(i) == Err(Cancelled) <==> p.luck.lateCancel(i))
            && (p.HashTask(i).Ok? <==>
                  !p.luck.lateCancel(i) && !p.luck.hash(i) && (f.size <= 131072 || |content| >= 65536))
            && (p.HashTask(i).Ok? ==>
                  p.HashTask(i).value ==
                  p.world.digest(if f.size <= 131072 then content else content[..65536] + content[|content| - 65536..]))
  {
    var content := p.world.content(p.files[i].path);
    assert content[..|content|] == content;
  }

  // ---------------------------------------------------------------------------
  // Agreement with hashing every file
  // ---------------------------------------------------------------------------

  // A file fails to resolve only by its own bad luck, and otherwise carries its true fingerprint
  // and, as content hash, its true full hash when the cache knows it, else the fingerprint.
  lemma ResolveIsHashing(p: Pass, i: nat)
    requires Measured(p) && SoundCache(p.world, p.at, p.entries) && i < |p.files|
    ensures p.Outcome(i).Ok? <==>
            i < p.luck.cancelAt && !p.luck.stat(i) && (p.Found(i) || (!p.luck.lateCancel(i) && !p.luck.hash(i)))
    ensures p.Outcome(i).Ok? ==>
              var r, f := p.Outcome(i).value, p.files[i].path;
              && r.file == p.files[i]
              && r.quick == Some(TrueQuick(p.world, f))
              && r.hash == (if p.Found(i) && p.entries[p.Key(i)].full.Some? then TrueFull(p.world, f)
                            else TrueQuick(p.world, f))
  {
    HashTaskIsTrue(p, i);
    if p.Found(i) {
      assert SoundFor(p.world, p.entries[p.Key(i)], p.files[i].path);
    }
  }

  // And each failure has its own cause: cancelled before the lookup or before the hashing, the stat,
  // or the reading.
  lemma FailureCauses(p: Pass, i: nat)
    requires Measured(p) && i < |p.files|
    ensures p.Outcome(i) == Err(StatFailed) <==> i < p.luck.cancelAt && p.luck.stat(i)
    ensures p.Outcome(i) == Err(Cancelled) <==> i >= p.luck.cancelAt || (p.Missed(i) && p.luck.lateCancel(i))
    ensures p.Outcome(i) == Err(HashFailed) <==> p.Missed(i) && !p.luck.lateCancel(i) && p.luck.hash(i)
  {
    HashTaskIsTrue(p, i);
  }

  // One hash call for each file that misses and is not cancelled by then.
  lemma HashCallsAt(p: Pass, n: nat)
    requires n < |p.files|
    ensures p.HashCalls(p.Picked(true, 0)) == 0
    ensures p.HashCalls(p.Picked(true, n + 1)) ==
            p.HashCalls(p.Picked(true, n)) + (if p.Missed(n) && !p.luck.lateCancel(n) then 1 else 0)
  {
    var before := p.Picked(true, n);
    assert (before + [n])[..|before|] == before && before + [] == before;
  }

  // Where the outcome of file i ends up in the output.
  function Position(p: Pass, i: nat): nat
    requires i < |p.files|
  {
    if p.Missed(i) then |p.Picked(false, |p.files|)| + |p.Picked(true, i)| else |p.Picked(false, i)|
  }

  lemma {:induction false} PickedSplit(p: Pass, missed: bool, i: nat, n: nat)
    requires i <= n <= |p.files|
    ensures |p.Picked(true, n)| + |p.Picked(false, n)| == n
    ensures |p.Picked(missed, i)| <= |p.Picked(missed, n)|
    ensures i < n && p.Missed(i) == missed ==>
              |p.Picked(missed, i)| < |p.Picked(missed, n)| && p.Picked(missed, n)[|p.Picked(missed, i)|] == i
    decreases n
  {
    if i < n {
      PickedSplit(p, missed, i, n - 1);
    } else if n > 0 {
      PickedSplit(p, missed, i - 1, n - 1);
    }
  }

  // Each file appears in the output exactly once; hits and early errors come first, and both
  // groups keep the walk order.
  lemma EachFileOnce(p: Pass)
    ensures |p.Results()| == |p.files|
    ensures forall i :: 0 <= i < |p.files| ==>
              Position(p, i) < |p.files| && p.Results()[Position(p, i)] == p.Outcome(i)
    ensures forall i, j :: 0 <= i < |p.files| && 0 <= j < |p.files| && i != j ==> Position(p, i) != Position(p, j)
    ensures forall i, j :: 0 <= i < j < |p.files| && p.Missed(i) == p.Missed(j) ==> Position(p, i) < Position(p, j)
    ensures forall i, j :: 0 <= i < |p.files| && 0 <= j < |p.files| && !p.Missed(i) && p.Missed(j) ==>
              Position(p, i) < Position(p, j)
  {
    var n := |p.files|;
    PickedSplit(p, true, n, n);
    forall i | 0 <= i < n
      ensures Position(p, i) < n && p.Results()[Position(p, i)] == p.Outcome(i)
      ensures p.Missed(i) ==> |p.Picked(false, n)| <= Position(p, i)
      ensures !p.Missed(i) ==> Position(p, i) < |p.Picked(false, n)|
    {
      PickedSplit(p, p.Missed(i), i, n);
    }
    forall i, j | 0 <= i < j < n && p.Missed(i) == p.Missed(j) ensures Position(p, i) < Position(p, j) {
      PickedSplit(p, p.Missed(i), i, j);
    }
  }

  // ---------------------------------------------------------------------------
  // The cache afterwards
  // ---------------------------------------------------------------------------

  // The entry for `key` was last written by the t-th of these misses.
  ghost predicate WrittenBy(p: Pass, idx: seq<nat>, t: nat, key: CacheKey)
    requires p.InRange(idx)
  {
    && t < |idx| && p.Stored(idx[t]) && p.Key(idx[t]) == key
    && key in p.CacheAfter(idx) && p.CacheAfter(idx)[key] == CacheEntry(p.HashTask(idx[t]).value, None)
  }

  // Either nothing in `idx` was stored under this key and its entry is unchanged, or the entry
  // is a fresh one, with no full hash, from some file of that key.
  lemma {:induction false} CacheAfterAt(p: Pass, idx: seq<nat>, key: CacheKey)
    requires p.InRange(idx)
    ensures var after := p.CacheAfter(idx);
            || ((forall t :: 0 <= t < |idx| && p.Stored(idx[t]) ==> p.Key(idx[t]) != key)
                && (key in after <==> key in p.entries) && (key in after ==> after[key] == p.entries[key]))
            || exists t: nat :: WrittenBy(p, idx, t, key)
    decreases |idx|
  {
    if idx != [] {
      var front := idx[..|idx| - 1];
      CacheAfterAt(p, front, key);
      var last := idx[|idx| - 1];
      if p.Stored(last) && p.Key(last) == key {
        assert WrittenBy(p, idx, |idx| - 1, key);
      } else if t: nat :| WrittenBy(p, front, t, key) {
        assert WrittenBy(p, idx, t, key);
      } else {
        assert forall t :: 0 <= t < |front| ==> idx[t] == front[t];
      }
    }
  }

  // Soundness survives every pattern of stat, lookup, hash and upsert failure and cancellation.
  lemma CacheStaysSound(p: Pass)
    requires Measured(p) && KeyDeterminesContent(p.world) && SoundCache(p.world, p.at, p.entries)
    ensures SoundCache(p.world, p.at, p.FinalCache())
  {
    var idx := p.Picked(true, |p.files|);
    forall f | MakeCacheKey(p.at, p.world.stat(f)) in p.FinalCache()
      ensures SoundFor(p.world, p.FinalCache()[MakeCacheKey(p.at, p.world.stat(f))], f)
    {
      var key := MakeCacheKey(p.at, p.world.stat(f));
      CacheAfterAt(p, idx, key);
      if t: nat :| WrittenBy(p, idx, t, key) {
        HashTaskIsTrue(p, idx[t]);
        var g := p.files[idx[t]].path;
        assert p.world.stat(g) == p.world.stat(f);
      } else {
        assert SoundFor(p.world, p.entries[key], f);
      }
    }
  }

  // A scan touches no entry of another device or volume, whatever the stat triple.
  lemma OtherPlacesUntouched(p: Pass, at: Place, stat: FileStat)
    requires at != p.at
    ensures MakeCacheKey(at, stat) in p.FinalCache() <==> MakeCacheKey(at, stat) in p.entries
    ensures MakeCacheKey(at, stat) in p.entries ==>
              p.FinalCache()[MakeCacheKey(at, stat)] == p.entries[MakeCacheKey(at, stat)]
  {
    CacheAfterAt(p, p.Picked(true, |p.files|), MakeCacheKey(at, stat));
  }

  // So what the cache says about the files of other volumes stays true, even where they have the
  // stat triples of files scanned here.
  lemma OtherPlacesStaySound(p: Pass, at: Place, w: Snapshot)
    requires at != p.at && SoundCache(w, at, p.entries)
    ensures SoundCache(w, at, p.FinalCache())
  {
    forall f | MakeCacheKey(at, w.stat(f)) in p.FinalCache()
      ensures SoundFor(w, p.FinalCache()[MakeCacheKey(at, w.stat(f))], f)
    {
      OtherPlacesUntouched(p, at, w.stat(f));
    }
  }

  // Exactly which keys are live afterwards, whatever went wrong.
  lemma FinalCacheKeys(p: Pass, key: CacheKey)
    ensures key in p.FinalCache() <==>
            key in p.entries || exists j :: 0 <= j < |p.files| && p.Stored(j) && p.Key(j) == key
  {
    var idx := p.Picked(true, |p.files|);
    CacheAfterAt(p, idx, key);
    if j :| 0 <= j < |p.files| && p.Stored(j) && p.Key(j) == key {
      PickedSplit(p, true, j, |p.files|);
      assert idx[|p.Picked(true, j)|] == j;
    }
  }

  // ---------------------------------------------------------------------------
  // Rescan
  // ---------------------------------------------------------------------------

  // Nothing goes wrong in the lookup phase of a pass.
  ghost predicate CleanLookups(p: Pass) {
    p.luck.cancelAt >= |p.files| &&
    forall i :: 0 <= i < |p.files| ==> !p.luck.stat(i) && !p.luck.lookup(i) && p.Key(i).sizeBytes <= I64_MAX
  }

  ghost predicate ErrorFree(p: Pass) {
    CleanLookups(p) && forall i :: 0 <= i < |p.files| ==> !p.luck.lateCancel(i) && !p.luck.hash(i) && !p.luck.upsert(i)
  }

  // A second pass over the same files with the cache the first one left behind.
  ghost predicate Follows(second: Pass, first: Pass) {
    && second.world == first.world && second.at == first.at && second.files == first.files
    && second.entries == first.FinalCache()
  }

  // After any first pass, a second pass that gets as far as looking file i up goes on to hash it
  // iff its own lookup fails, the size is out of range, or no entry was there and none was stored.
  lemma SecondPassHashes(first: Pass, second: Pass, i: nat)
    requires Follows(second, first) && i < |first.files|
    ensures second.Missed(i) <==>
            && i < second.luck.cancelAt && !second.luck.stat(i)
            && (|| second.luck.lookup(i) || first.Key(i).sizeBytes > I64_MAX
                || (first.Key(i) !in first.entries
                    && forall j :: 0 <= j < |first.files| && first.Stored(j) ==> first.Key(j) != first.Key(i)))
  {
    FinalCacheKeys(first, first.Key(i));
    assert second.Key(i) == first.Key(i);
  }

  lemma {:induction false} NoMisses(p: Pass, n: nat)
    requires n <= |p.files| && forall i :: 0 <= i < n ==> !p.Missed(i)
    ensures p.Picked(true, n) == []
    ensures |p.Picked(false, n)| == n && forall i :: 0 <= i < n ==> p.Picked(false, n)[i] == i
    decreases n
  {
    if n > 0 {
      NoMisses(p, n - 1);
    }
  }

  // The error-free case: the rescan makes no hash call, leaves the cache alone, and resolves
  // every file to the same (path, hash, quick_hash) as before, now in walk order.
  lemma RescanIsFree(first: Pass, second: Pass)
    requires Measured(first) && KeyDeterminesContent(first.world)
    requires ErrorFree(first) && Follows(second, first) && CleanLookups(second)
    ensures second.HashCalls(second.Picked(true, |second.files|)) == 0
    ensures second.FinalCache() == second.entries
    ensures forall i :: 0 <= i < |first.files| ==> second.Outcome(i) == first.Outcome(i) && first.Outcome(i).Ok?
    ensures second.Results() == seq(|first.files|, i requires 0 <= i < |first.files| => first.Outcome(i))
  {
    forall i | 0 <= i < |first.files|
      ensures !second.Missed(i) && second.Outcome(i) == first.Outcome(i) && first.Outcome(i).Ok?
    {
      SameOutcome(first, second, i);
    }
    NoMisses(second, |second.files|);
  }

  lemma SameOutcome(first: Pass, second: Pass, i: nat)
    requires Measured(first) && KeyDeterminesContent(first.world)
    requires ErrorFree(first) && Follows(second, first) && CleanLookups(second) && i < |first.files|
    ensures !second.Missed(i) && second.Outcome(i) == first.Outcome(i) && first.Outcome(i).Ok?
  {
    var key := first.Key(i);
    var idx := first.Picked(true, |first.files|);
    assert second.Key(i) == key;
    HashTaskIsTrue(first, i);
    if first.Missed(i) {
      PickedSplit(first, true, i, |first.files|);
      assert first.Stored(idx[|first.Picked(true, i)|]);
    }
    CacheAfterAt(first, idx, key);
    if t: nat :| WrittenBy(first, idx, t, key) {
      HashTaskIsTrue(first, idx[t]);
      var f, g := first.files[idx[t]].path, first.files[i].path;
      assert first.world.stat(f) == first.world.stat(g);
    }
  }

  // ---------------------------------------------------------------------------
  // When a full hash is lost
  // ---------------------------------------------------------------------------

  ghost predicate HasFull(entries: map<CacheKey, CacheEntry>, key: CacheKey) {
    key in entries && entries[key].full.Some?
  }

  // Everything about file j but its lookup goes well.
  predicate WellApartFromLookup(p: Pass, j: nat)
    requires j < |p.files|
  {
    && j < p.luck.cancelAt && !p.luck.stat(j) && p.HashTask(j).Ok? && !p.luck.upsert(j)
    && p.Key(j).sizeBytes <= I64_MAX
  }

  // The lookup of some file of this key fails while all else about that file goes well.
  ghost predicate Overwritten(p: Pass, key: CacheKey) {
    exists j :: 0 <= j < |p.files| && p.Key(j) == key && p.luck.lookup(j) && WellApartFromLookup(p, j)
  }

  lemma StoredOverEntry(p: Pass, j: nat)
    requires j < |p.files| && p.Key(j) in p.entries
    ensures p.Stored(j) <==> p.luck.lookup(j) && WellApartFromLookup(p, j)
  {
  }

  // A file whose lookup fails is treated as a miss, and storing its fresh fingerprint replaces
  // the whole entry.  So a cached full hash outlives a pass iff that happens to no file of its
  // key; then the entry is as it was.
  lemma FullHashSurvivesIff(p: Pass, key: CacheKey)
    requires HasFull(p.entries, key)
    ensures key in p.FinalCache()
    ensures HasFull(p.FinalCache(), key) <==> !Overwritten(p, key)
    ensures HasFull(p.FinalCache(), key) ==> p.FinalCache()[key] == p.entries[key]
  {
    var idx := p.Picked(true, |p.files|);
    CacheAfterAt(p, idx, key);
    forall j | 0 <= j < |p.files| && p.Key(j) == key
      ensures p.Stored(j) <==> p.luck.lookup(j) && WellApartFromLookup(p, j)
      ensures p.Stored(j) ==> |p.Picked(true, j)| < |idx| && idx[|p.Picked(true, j)|] == j
    {
      StoredOverEntry(p, j);
      PickedSplit(p, true, j, |p.files|);
    }
    if t: nat :| WrittenBy(p, idx, t, key) {
      assert Overwritten(p, key);
    } else {
      FinalCacheKeys(p, key);
    }
  }

  // No full hash comes from nowhere.
  lemma NoNewFullHash(p: Pass, key: CacheKey)
    requires HasFull(p.FinalCache(), key)
    ensures HasFull(p.entries, key)
  {
    CacheAfterAt(p, p.Picked(true, |p.files|), key);
  }

  // Exactly when two passes in a row that both resolve a file give it the same result: unless its
  // fingerprint is its full hash anyway, or none was cached or can be read, either both used the
  // full hash, or the first missed it and the second misses it too or finds it erased.
  lemma SameResultIff(first: Pass, second: Pass, i: nat)
    requires Measured(first) && KeyDeterminesContent(first.world)
    requires SoundCache(first.world, first.at, first.entries) && Follows(second, first)
    requires i < |first.files| && first.Outcome(i).Ok? && second.Outcome(i).Ok?
    ensures var f, key := first.files[i].path, first.Key(i);
            second.Outcome(i) == first.Outcome(i)
            <==> || TrueFull(first.world, f) == TrueQuick(first.world, f)
                 || !HasFull(first.entries, key) || key.sizeBytes > I64_MAX
                 || (first.luck.lookup(i) <==> (second.luck.lookup(i) || Overwritten(first, key)))
  {
    var key := first.Key(i);
    assert second.Key(i) == key;
    CacheStaysSound(first);
    ResolveIsHashing(first, i);
    ResolveIsHashing(second, i);
    if HasFull(first.entries, key) {
      FullHashSurvivesIff(first, key);
    } else if HasFull(second.entries, key) {
      NoNewFullHash(first, key);
    }
  }

  // --- scans alone never put a full hash into the cache ---

  ghost predicate NoFull(entries: map<CacheKey, CacheEntry>) {
    forall key :: !HasFull(entries, key)
  }

  lemma NoFullStays(p: Pass)
    requires NoFull(p.entries)
    ensures NoFull(p.FinalCache())
  {
    forall key ensures !HasFull(p.FinalCache(), key) {
      if HasFull(p.FinalCache(), key) {
        NoNewFullHash(p, key);
      }
    }
  }

  // Scans of whatever volumes and files, each starting from the cache the one before left; every
  // volume has its own files.
  ghost predicate Chain(passes: seq<Pass>, worlds: Place -> Snapshot) {
    && (forall n :: 0 <= n < |passes| ==> Measured(passes[n]) && passes[n].world == worlds(passes[n].at))
    && (forall n :: 0 < n < |passes| ==> passes[n].entries == passes[n - 1].FinalCache())
  }

  // On each volume the stat triple identifies the content.
  ghost predicate KeysDetermineContents(worlds: Place -> Snapshot) {
    forall at :: KeyDeterminesContent(worlds(at))
  }

  lemma {:induction false} ChainCache(passes: seq<Pass>, worlds: Place -> Snapshot, n: nat, at: Place)
    requires Chain(passes, worlds) && n < |passes| && KeysDetermineContents(worlds)
    requires passes[0].entries == map[]
    ensures NoFull(passes[n].entries) && SoundCache(worlds(at), at, passes[n].entries)
    decreases n
  {
    if n > 0 {
      var before := passes[n - 1];
      ChainCache(passes, worlds, n - 1, at);
      NoFullStays(before);
      if at == before.at {
        CacheStaysSound(before);
      } else {
        OtherPlacesStaySound(before, at, worlds(at));
      }
    }
  }

  // So, as nothing but scans writes the cache, all scans of a volume since it was empty agree on a
  // file that they resolve, whatever goes wrong in them and whatever other volumes are scanned in
  // between: both its hashes are its fingerprint.
  lemma ScansAgree(passes: seq<Pass>, worlds: Place -> Snapshot, m: nat, n: nat, i: nat, j: nat)
    requires Chain(passes, worlds) && passes != [] && passes[0].entries == map[]
    requires KeysDetermineContents(worlds)
    requires m < |passes| && i < |passes[m].files| && passes[m].Outcome(i).Ok?
    requires n < |passes| && j < |passes[n].files| && passes[n].Outcome(j).Ok?
    requires passes[m].at == passes[n].at && passes[m].files[i].path == passes[n].files[j].path
    ensures var a, b := passes[m].Outcome(i).value, passes[n].Outcome(j).value;
            && a.hash == b.hash == TrueQuick(worlds(passes[m].at), passes[m].files[i].path)
            && a.quick == b.quick == Some(a.hash)
  {
    ChainCache(passes, worlds, m, passes[m].at);
    ChainCache(passes, worlds, n, passes[n].at);
    ResolveIsHashing(passes[m], i);
    ResolveIsHashing(passes[n], j);
    assert !HasFull(passes[m].entries, passes[m].Key(i)) && !HasFull(passes[n].entries, passes[n].Key(j));
  }

  // --- with a full hash in the cache, one failed lookup changes a content hash for good ---

  function MarkedHash(mark: Byte): (h: Hash)
    ensures h[0] == mark
  {
    [mark] + seq(HASH_LEN - 1, i => 0)
  }

  // A file just above the threshold, and a digest that tells its whole content from its two ends.
  const LARGE: Snapshot := Snapshot(
    f => FileStat(1, THRESHOLD + 1, 0),
    f => seq(THRESHOLD + 1, i => 0),
    b => MarkedHash(if |b| > THRESHOLD then 1 else 0))

  const HERE: Place := Place(0, 0)

  function LargePass(entries: map<CacheKey, CacheEntry>, lookupFails: bool): Pass {
    var no := (i: nat) => false;
    Pass(LARGE, HERE, entries, [DiscoveredFile(0, "large", THRESHOLD + 1)],
         Luck(1, no, i => lookupFails, no, no, no))
  }

  const LARGE_KEY: CacheKey := MakeCacheKey(HERE, FileStat(1, THRESHOLD + 1, 0))

  lemma LargeHashes()
    ensures TrueFull(LARGE, 0) == MarkedHash(1) && TrueQuick(LARGE, 0) == MarkedHash(0)
    ensures MarkedHash(1) != MarkedHash(0)
  {
    assert MarkedHash(1)[0] != MarkedHash(0)[0];
  }

  lemma LargeFacts(p: Pass, lookupFails: bool)
    requires p == LargePass(p.entries, lookupFails)
    ensures Measured(p) && KeyDeterminesContent(p.world)
    ensures |p.files| == 1 && p.Key(0) == LARGE_KEY
    ensures p.HashTask(0).Ok?
  {
    HashTaskIsTrue(p, 0);
  }

  lemma LargeSound(entries: map<CacheKey, CacheEntry>)
    requires entries.Keys == {LARGE_KEY} && entries[LARGE_KEY].quick == MarkedHash(0)
    requires entries[LARGE_KEY].full.Some? ==> entries[LARGE_KEY].full.value == MarkedHash(1)
    ensures SoundCache(LARGE, HERE, entries)
  {
    LargeHashes();
    forall f | MakeCacheKey(HERE, LARGE.stat(f)) in entries
      ensures SoundFor(LARGE, entries[MakeCacheKey(HERE, LARGE.stat(f))], f)
    {
      assert TrueQuick(LARGE, f) == TrueQuick(LARGE, 0) && TrueFull(LARGE, f) == TrueFull(LARGE, 0);
    }
  }

  // With its full hash cached the file resolves to it, and the cache stays as it is.
  lemma LargeFound(p: Pass)
    requires p == LargePass(p.entries, false)
    requires LARGE_KEY in p.entries
    ensures CleanLookups(p) && p.FinalCache() == p.entries
    ensures p.Outcome(0).Ok? && p.Outcome(0).value.hash == CachedHash(p.entries[LARGE_KEY])
  {
    LargeFacts(p, false);
    NoMisses(p, 1);
  }

  // A failed lookup leaves the fingerprint alone in the cache.
  lemma LargeLost(p: Pass)
    requires p == LargePass(p.entries, true)
    requires SoundCache(LARGE, HERE, p.entries) && HasFull(p.entries, LARGE_KEY)
    ensures p.Outcome(0).Ok?
    ensures LARGE_KEY in p.FinalCache() && p.FinalCache()[LARGE_KEY] == CacheEntry(MarkedHash(0), None)
  {
    LargeFacts(p, true);
    LargeHashes();
    assert WellApartFromLookup(p, 0);
    FullHashSurvivesIff(p, LARGE_KEY);
    CacheStaysSound(p);
    assert SoundFor(LARGE, p.FinalCache()[LARGE_KEY], 0);
  }

  lemma LookupCostsFullHash() returns (before: Pass, during: Pass, after: Pass)
    ensures before == LargePass(before.entries, false) && SoundCache(before.world, before.at, before.entries)
    ensures during == LargePass(during.entries, true) && after == LargePass(after.entries, false)
    ensures Measured(before) && CleanLookups(before)
    ensures Follows(during, before) && Follows(after, during) && CleanLookups(after)
    ensures |before.files| == 1 && before.Outcome(0).Ok? && during.Outcome(0).Ok? && after.Outcome(0).Ok?
    ensures before.Outcome(0).value.hash == TrueFull(LARGE, 0)
    ensures after.Outcome(0).value.hash == TrueQuick(LARGE, 0) != TrueFull(LARGE, 0)
  {
    LargeHashes();
    var entries := map[LARGE_KEY := CacheEntry(MarkedHash(0), Some(MarkedHash(1)))];
    LargeSound(entries);
    before := LargePass(entries, false);
    LargeFacts(before, false);
    LargeFound(before);
    during := LargePass(before.FinalCache(), true);
    LargeLost(during);
    after := LargePass(during.FinalCache(), false);
    LargeFound(after);
  }
}
