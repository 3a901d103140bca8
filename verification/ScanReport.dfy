/**
 The accounting loop of a scan: persist every resolved file, count it, and report.
 */
module ScanReport {
  import opened Prelude
  import opened Hex
  import opened IdentityCache
  import opened ScanResolve
  import opened ScanTheorems

  datatype UpsertOutcome = Inserted | Updated | Unchanged

  datatype RepoCall =
    | UpsertFile(file: DiscoveredFile, hash: Hash, quick: Option<Hash>, device: nat)
    | UpsertLocation(hash: Hash, volume: nat, relativePath: string, device: nat)

  // How the repository answers for the i-th resolved entry: None is an error.
  datatype Answers = Answers(file: nat -> bool, location: nat -> Option<UpsertOutcome>)

  // The file repository, as the calls made to it.
  class Repository {
    var calls: seq<RepoCall>

    constructor ()
      ensures calls == []
    {
      calls := [];
    }

    method Record(call: RepoCall)
      modifies this
      ensures calls == old(calls) + [call]
    {
      calls := calls + [call];
    }
  }

  // What a scan is asked to do, besides the walk.
  datatype Options = Options(dryRun: bool, onPersist: bool, withMetadata: bool)

  // A metadata job: a file and its content hash.
  datatype Queued = Queued(hash: Hash, path: Path)

  datatype Report = Report(
    filesSeen: nat, filesNew: nat, filesUpdated: nat, filesErrored: nat,
    bytesHashed: nat,               // a u64, wrapping
    perFile: seq<Resolved>,         // (hash, size, path) lines for the shell
    manifest: seq<Resolved>,        // files persisted this run
    notified: seq<string>,          // on_persist calls, by relative path
    enqueued: seq<Queued>)          // files handed to the metadata queue

  const U64: nat := 0x1_0000_0000_0000_0000

  // ---------------------------------------------------------------------------
  // What the report must contain, entry by entry
  // ---------------------------------------------------------------------------

  datatype Batch = Batch(at: Place, entries: seq<ResolveEntry>, answers: Answers) {
    // The location outcome of entry i, None when either upsert fails or nothing was resolved.
    function Persisted(i: nat): Option<UpsertOutcome>
      requires i < |entries|
    {
      if entries[i].Ok? && answers.file(i) then answers.location(i) else None
    }

    function Resolveds(n: nat): seq<Resolved>
      requires n <= |entries|
    {
      if n == 0 then [] else Resolveds(n - 1) + (if entries[n - 1].Ok? then [entries[n - 1].value] else [])
    }

    function Manifest(n: nat): seq<Resolved>
      requires n <= |entries|
    {
      if n == 0 then []
      else Manifest(n - 1) + (if Persisted(n - 1).Some? then [entries[n - 1].value] else [])
    }

    // Files whose rows changed: candidates for metadata extraction.
    function Changed(n: nat): seq<Queued>
      requires n <= |entries|
    {
      if n == 0 then []
      else
        Changed(n - 1) +
        (if Persisted(n - 1).Some? && !Persisted(n - 1).value.Unchanged?
         then [Queued(entries[n - 1].value.hash, entries[n - 1].value.file.path)] else [])
    }

    function Fresh(n: nat): nat
      requires n <= |entries|
    {
      if n == 0 then 0 else Fresh(n - 1) + (if Persisted(n - 1) == Some(Inserted) then 1 else 0)
    }

    // One file upsert for a resolved file, followed by one location upsert when it succeeds.
    function CallsFor(i: nat): seq<RepoCall>
      requires i < |entries|
    {
      if entries[i].Err? then []
      else
        var r := entries[i].value;
        [UpsertFile(r.file, r.hash, r.quick, at.device)]
        + (if answers.file(i) then [UpsertLocation(r.hash, at.volume, r.file.relativePath, at.device)] else [])
    }

    function Calls(n: nat): seq<RepoCall>
      requires n <= |entries|
    {
      if n == 0 then [] else Calls(n - 1) + CallsFor(n - 1)
    }
  }

  function TotalSize(rs: seq<Resolved>): nat {
    if rs == [] then 0 else TotalSize(rs[..|rs| - 1]) + rs[|rs| - 1].file.size
  }

  function RelativePaths(rs: seq<Resolved>): seq<string> {
    seq(|rs|, i requires 0 <= i < |rs| => rs[i].file.relativePath)
  }

  // u64 addition, wrapping.
  function AddU64(a: nat, b: nat): nat {
    (a + b) % U64
  }

  // The byte counter after these files.
  function HashedBytes(rs: seq<Resolved>): nat {
    if rs == [] then 0 else AddU64(HashedBytes(rs[..|rs| - 1]), rs[|rs| - 1].file.size)
  }

  lemma HashedBytesAppend(rs: seq<Resolved>, r: Resolved)
    ensures HashedBytes(rs + [r]) == AddU64(HashedBytes(rs), r.file.size)
  {
    assert (rs + [r])[..|rs|] == rs;
  }

  // The counter is the total size of the listed files modulo 2^64.
  lemma {:induction false} HashedBytesIsTotal(rs: seq<Resolved>)
    ensures HashedBytes(rs) == TotalSize(rs) % 0x1_0000_0000_0000_0000
    ensures TotalSize(rs) == if rs == [] then 0 else TotalSize(rs[..|rs| - 1]) + rs[|rs| - 1].file.size
  {
    if rs != [] {
      var front := rs[..|rs| - 1];
      HashedBytesIsTotal(front);
      WrapAgain(TotalSize(front), rs[|rs| - 1].file.size);
    }
  }

  lemma WrapAgain(a: nat, b: nat)
    ensures AddU64(a % U64, b) == (a + b) % U64
  {
    var q := a / U64;
    assert a + b == q * U64 + (a % U64 + b);
  }

  // `persist_file`: the content row first, then the location row.
  method PersistFile(b: Batch, i: nat, repo: Repository) returns (outcome: Option<UpsertOutcome>)
    requires i < |b.entries| && b.entries[i].Ok?
    modifies repo
    ensures outcome == b.Persisted(i)
    ensures repo.calls == old(repo.calls) + b.CallsFor(i)
  {
    var r := b.entries[i].value;
    repo.Record(UpsertFile(r.file, r.hash, r.quick, b.at.device));
    if !b.answers.file(i) {
      return None;
    }
    repo.Record(UpsertLocation(r.hash, b.at.volume, r.file.relativePath, b.at.device));
    return b.answers.location(i);
  }

  // The bookkeeping after a successful persist.
  function CountPersisted(r: Report, res: Resolved, outcome: UpsertOutcome, opts: Options): Report {
    r.(notified := if opts.onPersist then r.notified + [res.file.relativePath] else r.notified,
       enqueued :=
         if opts.withMetadata && !outcome.Unchanged? then r.enqueued + [Queued(res.hash, res.file.path)] else r.enqueued,
       manifest := r.manifest + [res],
       filesNew := if outcome.Inserted? then r.filesNew + 1 else r.filesNew,
       filesUpdated := if outcome.Inserted? then r.filesUpdated else r.filesUpdated + 1)
  }

  // Each of the first n entries is counted once, as new, updated or errored.
  ghost predicate Counts(b: Batch, n: nat, r: Report)
    requires n <= |b.entries|
  {
    && r.filesSeen == n == r.filesNew + r.filesUpdated + r.filesErrored
    && r.perFile == b.Resolveds(n)
    && r.bytesHashed == HashedBytes(r.perFile)
  }

  // Everything persisted shows up, in order, in the manifest and the callbacks.
  ghost predicate Persists(b: Batch, opts: Options, n: nat, r: Report)
    requires n <= |b.entries|
  {
    && r.filesNew == b.Fresh(n) && r.filesNew + r.filesUpdated == |r.manifest|
    && r.manifest == b.Manifest(n)
    && r.notified == (if opts.onPersist then RelativePaths(r.manifest) else [])
    && r.enqueued == (if opts.withMetadata then b.Changed(n) else [])
  }

  // A dry run counts every resolved file as new and touches nothing.
  ghost predicate Untouched(r: Report) {
    && r.filesNew == |r.perFile| && r.filesUpdated == 0
    && r.manifest == [] && r.notified == [] && r.enqueued == []
  }

  // The report accounts for the first n entries.
  ghost predicate Accounts(b: Batch, opts: Options, n: nat, r: Report)
    requires n <= |b.entries|
  {
    Counts(b, n, r) && if opts.dryRun then Untouched(r) else Persists(b, opts, n, r)
  }

  // The calls the repository gets for the first n entries: none at all in a dry run.
  function ScanCalls(b: Batch, opts: Options, n: nat): seq<RepoCall>
    requires n <= |b.entries|
  {
    if opts.dryRun then [] else b.Calls(n)
  }

  const NOTHING: Report := Report(0, 0, 0, 0, 0, [], [], [], [])

  // The report after entry i, `outcome` being what persisting it gave.
  function Tally(r: Report, entry: ResolveEntry, outcome: Option<UpsertOutcome>, opts: Options): Report {
    match entry
    case Err(_) => r.(filesSeen := r.filesSeen + 1, filesErrored := r.filesErrored + 1)
    case Ok(res) =>
      var listed := r.(filesSeen := r.filesSeen + 1, bytesHashed := AddU64(r.bytesHashed, res.file.size),
                       perFile := r.perFile + [res]);
      if opts.dryRun then listed.(filesNew := r.filesNew + 1)
      else if outcome.None? then listed.(filesErrored := r.filesErrored + 1)
      else CountPersisted(listed, res, outcome.value, opts)
  }

  function ReportOf(b: Batch, opts: Options, n: nat): Report
    requires n <= |b.entries|
  {
    if n == 0 then NOTHING
    else Tally(ReportOf(b, opts, n - 1), b.entries[n - 1], b.Persisted(n - 1), opts)
  }

  method Account(b: Batch, opts: Options, repo: Repository) returns (r: Report)
    modifies repo
    ensures r == ReportOf(b, opts, |b.entries|)
    ensures repo.calls == old(repo.calls) + ScanCalls(b, opts, |b.entries|)
  {
    r := NOTHING;
    for i := 0 to |b.entries|
      invariant r == ReportOf(b, opts, i)
      invariant repo.calls == old(repo.calls) + ScanCalls(b, opts, i)
    {
      r := AccountEntry(b, opts, i, r, repo);
    }
  }

  // The loop body.
  method AccountEntry(b: Batch, opts: Options, i: nat, r0: Report, repo: Repository) returns (r: Report)
    requires i < |b.entries|
    modifies repo
    ensures r == Tally(r0, b.entries[i], b.Persisted(i), opts)
    ensures repo.calls == old(repo.calls) + if opts.dryRun then [] else b.CallsFor(i)
  {
    r := r0.(filesSeen := r0.filesSeen + 1);
    if b.entries[i].Err? {
      r := r.(filesErrored := r.filesErrored + 1);
      return;
    }
    var res := b.entries[i].value;
    r := r.(bytesHashed := AddU64(r.bytesHashed, res.file.size), perFile := r.perFile + [res]);
    if opts.dryRun {
      r := r.(filesNew := r.filesNew + 1);
      return;
    }
    var outcome := PersistFile(b, i, repo);
    if outcome.None? {
      r := r.(filesErrored := r.filesErrored + 1);
      return;
    }
    if opts.onPersist {
      r := r.(notified := r.notified + [res.file.relativePath]);
    }
    if opts.withMetadata && (outcome.value.Inserted? || outcome.value.Updated?) {
      r := r.(enqueued := r.enqueued + [Queued(res.hash, res.file.path)]);
    }
    r := r.(manifest := r.manifest + [res]);
    if outcome.value.Inserted? {
      r := r.(filesNew := r.filesNew + 1);
    } else {
      r := r.(filesUpdated := r.filesUpdated + 1);
    }
  }

  // No entry is lost: the report counts each once, and lists everything persisted in order.
  lemma {:induction false} ReportAccounts(b: Batch, opts: Options, n: nat)
    requires n <= |b.entries|
    ensures Accounts(b, opts, n, ReportOf(b, opts, n))
  {
    if n > 0 {
      ReportAccounts(b, opts, n - 1);
      TallyAccounts(b, opts, n - 1, ReportOf(b, opts, n - 1));
    } else {
      assert RelativePaths([]) == [];
    }
  }

  // The callback is told the relative path of each persisted file, in order.
  lemma NotifiedAt(b: Batch, opts: Options, n: nat)
    requires n <= |b.entries| && opts.onPersist && !opts.dryRun
    ensures var r := ReportOf(b, opts, n);
            && |r.notified| == |r.manifest|
            && forall i :: 0 <= i < |r.manifest| ==> r.notified[i] == r.manifest[i].file.relativePath
  {
    ReportAccounts(b, opts, n);
  }

  lemma TallyAccounts(b: Batch, opts: Options, i: nat, r: Report)
    requires i < |b.entries| && Accounts(b, opts, i, r)
    ensures Accounts(b, opts, i + 1, Tally(r, b.entries[i], b.Persisted(i), opts))
  {
    TallyCounts(b, opts, i, r);
    if !opts.dryRun {
      TallyPersists(b, opts, i, r);
    }
  }

  lemma TallyCounts(b: Batch, opts: Options, i: nat, r: Report)
    requires i < |b.entries| && Counts(b, i, r)
    ensures Counts(b, i + 1, Tally(r, b.entries[i], b.Persisted(i), opts))
  {
    if b.entries[i].Ok? {
      HashedBytesAppend(r.perFile, b.entries[i].value);
    }
  }

  lemma TallyPersists(b: Batch, opts: Options, i: nat, r: Report)
    requires i < |b.entries| && !opts.dryRun && Persists(b, opts, i, r)
    ensures Persists(b, opts, i + 1, Tally(r, b.entries[i], b.Persisted(i), opts))
  {
    if b.Persisted(i).Some? {
      var res := b.entries[i].value;
      assert RelativePaths(r.manifest + [res]) == RelativePaths(r.manifest) + [res.file.relativePath];
    }
  }

  // Dry run: the whole content is hashed, in walk order, without cache or repository.
  function DryRun(p: Pass): seq<ResolveEntry> {
    seq(|p.files|, i requires 0 <= i < |p.files| =>
      var content := p.world.content(p.files[i].path);
      if p.luck.lateCancel(i) then Err(Cancelled)
      else if p.luck.hash(i) then Err(HashFailed)
      else Ok(Resolved(p.files[i], p.world.digest(content[..Min(U64_MAX, |content|)]), None)))
  }

  // One entry per file in walk order: its true full hash and no quick hash, unless its own task
  // was cancelled or could not read it.
  ghost predicate HashedWhole(p: Pass, entries: seq<ResolveEntry>) {
    && |entries| == |p.files|
    && forall i :: 0 <= i < |p.files| ==>
         && (entries[i].Ok? <==> !p.luck.lateCancel(i) && !p.luck.hash(i))
         && (entries[i].Ok? ==> entries[i].value == Resolved(p.files[i], TrueFull(p.world, p.files[i].path), None))
         && (entries[i] == Err(Cancelled) <==> p.luck.lateCancel(i))
  }

  lemma DryRunHashesWhole(p: Pass)
    requires Measured(p)
    ensures HashedWhole(p, DryRun(p))
  {
    forall i | 0 <= i < |p.files|
      ensures var content := p.world.content(p.files[i].path); content[..Min(U64_MAX, |content|)] == content
    {
    }
  }

  // Resolution and accounting together: from the walked files to the report.
  method Scan(p: Pass, cache: CacheTable, answers: Answers, opts: Options, repo: Repository)
    returns (r: Report, ghost entries: seq<ResolveEntry>)
    requires cache.Valid() && cache.entries == p.entries
    modifies cache, repo
    ensures cache.Valid()
    ensures entries == if opts.dryRun then DryRun(p) else p.Results()
    ensures opts.dryRun && Measured(p) ==> HashedWhole(p, entries)
    ensures cache.entries == if opts.dryRun then old(cache.entries) else p.FinalCache()
    ensures Accounts(Batch(p.at, entries, answers), opts, |entries|, r)
    ensures repo.calls == old(repo.calls) + ScanCalls(Batch(p.at, entries, answers), opts, |entries|)
  {
    var results;
    if opts.dryRun {
      results := DryRun(p);
      if Measured(p) {
        DryRunHashesWhole(p);
      }
    } else {
      var hashed;
      results, hashed := ResolveWithCache(p, cache);
    }
    entries := results;
    r := Account(Batch(p.at, results, answers), opts, repo);
    ReportAccounts(Batch(p.at, results, answers), opts, |results|);
  }

  // New files are among the persisted, those among the resolved; every resolved file reaches the
  // repository, and every persisted one twice.
  lemma {:induction false} ManifestBounds(b: Batch, n: nat)
    requires n <= |b.entries|
    ensures b.Fresh(n) <= |b.Manifest(n)| <= |b.Resolveds(n)| <= n
    ensures |b.Resolveds(n)| + |b.Manifest(n)| <= |b.Calls(n)| <= 2 * |b.Resolveds(n)|
  {
    if n > 0 {
      ManifestBounds(b, n - 1);
    }
  }

  // Entry by entry, what the repository is told, and in which order: the content row of each
  // resolved file, with its hash and fingerprint, then, if that went in, its location.
  lemma CallsAt(b: Batch, n: nat, i: nat)
    requires i < n <= |b.entries|
    ensures b.Calls(0) == [] && |b.Calls(i + 1)| <= |b.Calls(n)|
    ensures |b.Calls(i + 1)| == |b.Calls(i)| + (if b.entries[i].Err? then 0 else if !b.answers.file(i) then 1 else 2)
    ensures b.entries[i].Ok? ==>
              var r, start := b.entries[i].value, |b.Calls(i)|;
              && b.Calls(n)[start] == UpsertFile(r.file, r.hash, r.quick, b.at.device)
              && (b.answers.file(i) ==>
                    b.Calls(n)[start + 1] == UpsertLocation(r.hash, b.at.volume, r.file.relativePath, b.at.device))
  {
    CallsOf(b, i);
    CallsPlaced(b, n, i);
  }

  // The calls for the entries from i up to n.
  function CallsBetween(b: Batch, i: nat, n: nat): seq<RepoCall>
    requires i <= n <= |b.entries|
    decreases n
  {
    if i == n then [] else CallsBetween(b, i, n - 1) + b.CallsFor(n - 1)
  }

  lemma {:induction false} CallsSplit(b: Batch, i: nat, n: nat)
    requires i <= n <= |b.entries|
    ensures b.Calls(n) == b.Calls(i) + CallsBetween(b, i, n)
    decreases n
  {
    if i == n {
      assert b.Calls(i) + [] == b.Calls(i);
    } else {
      CallsSplit(b, i, n - 1);
      Regroup(b.Calls(i), CallsBetween(b, i, n - 1), b.CallsFor(n - 1));
    }
  }

  lemma Regroup<T>(a: seq<T>, b: seq<T>, c: seq<T>)
    ensures (a + b) + c == a + (b + c)
  {
  }

  // A piece of a sequence is found at its place.
  lemma Placed<T>(before: seq<T>, own: seq<T>, after: seq<T>)
    ensures |own| > 0 ==> (before + own + after)[|before|] == own[0]
    ensures |own| > 1 ==> (before + own + after)[|before| + 1] == own[1]
  {
  }

  lemma CallsPlaced(b: Batch, n: nat, i: nat)
    requires i < n <= |b.entries|
    ensures |b.Calls(i + 1)| == |b.Calls(i)| + |b.CallsFor(i)| <= |b.Calls(n)|
    ensures |b.CallsFor(i)| > 0 ==> b.Calls(n)[|b.Calls(i)|] == b.CallsFor(i)[0]
    ensures |b.CallsFor(i)| > 1 ==> b.Calls(n)[|b.Calls(i)| + 1] == b.CallsFor(i)[1]
  {
    CallsSplit(b, i + 1, n);
    Placed(b.Calls(i), b.CallsFor(i), CallsBetween(b, i + 1, n));
  }

  lemma CallsOf(b: Batch, i: nat)
    requires i < |b.entries|
    ensures |b.CallsFor(i)| == if b.entries[i].Err? then 0 else if !b.answers.file(i) then 1 else 2
    ensures b.entries[i].Ok? ==>
              var r := b.entries[i].value;
              && b.CallsFor(i)[0] == UpsertFile(r.file, r.hash, r.quick, b.at.device)
              && (b.answers.file(i) ==>
                    b.CallsFor(i)[1] == UpsertLocation(r.hash, b.at.volume, r.file.relativePath, b.at.device))
  {
  }

  // What became of entry i: both upserts went through, with this outcome of the second.
  predicate WentIn(b: Batch, i: nat, outcome: UpsertOutcome)
    requires i < |b.entries|
  {
    b.entries[i].Ok? && b.answers.file(i) && b.answers.location(i) == Some(outcome)
  }

  predicate AnyWentIn(b: Batch, i: nat)
    requires i < |b.entries|
  {
    WentIn(b, i, Inserted) || WentIn(b, i, Updated) || WentIn(b, i, Unchanged)
  }

  lemma PersistedIff(b: Batch, i: nat)
    requires i < |b.entries|
    ensures b.Persisted(i).Some? <==> AnyWentIn(b, i)
    ensures forall outcome :: b.Persisted(i) == Some(outcome) <==> WentIn(b, i, outcome)
  {
    if b.Persisted(i).Some? {
      match b.Persisted(i).value
      case Inserted =>
      case Updated =>
      case Unchanged =>
    }
  }

  // Place by place, what the lists of a report hold: the persisted files, and for the metadata
  // queue those of them whose rows are not unchanged.
  lemma {:induction false} ListsAt(b: Batch, n: nat, i: nat)
    requires i < n <= |b.entries|
    ensures b.Resolveds(0) == [] && b.Manifest(0) == [] && b.Changed(0) == []
    ensures |b.Resolveds(i + 1)| == |b.Resolveds(i)| + (if b.entries[i].Ok? then 1 else 0) <= |b.Resolveds(n)|
    ensures |b.Manifest(i + 1)| == |b.Manifest(i)| + (if AnyWentIn(b, i) then 1 else 0) <= |b.Manifest(n)|
    ensures |b.Changed(i + 1)| ==
            |b.Changed(i)| + (if WentIn(b, i, Inserted) || WentIn(b, i, Updated) then 1 else 0) <= |b.Changed(n)|
    ensures b.entries[i].Ok? ==> b.Resolveds(n)[|b.Resolveds(i)|] == b.entries[i].value
    ensures AnyWentIn(b, i) ==> b.Manifest(n)[|b.Manifest(i)|] == b.entries[i].value
    ensures WentIn(b, i, Inserted) || WentIn(b, i, Updated) ==>
              b.Changed(n)[|b.Changed(i)|] == Queued(b.entries[i].value.hash, b.entries[i].value.file.path)
    decreases n
  {
    if i < n - 1 {
      ListsAt(b, n - 1, i);
    } else {
      PersistedIff(b, i);
    }
  }

  // The counters of a report: new are the files whose location row was inserted, updated those
  // whose row was there, errored all others; in a dry run every resolved file is new.
  lemma CountersAt(b: Batch, opts: Options, i: nat)
    requires i < |b.entries|
    ensures var r, r' := ReportOf(b, opts, i), ReportOf(b, opts, i + 1);
            opts.dryRun ==>
              && r'.filesNew == r.filesNew + (if b.entries[i].Ok? then 1 else 0)
              && r'.filesErrored == r.filesErrored + (if b.entries[i].Ok? then 0 else 1)
              && r'.filesUpdated == r.filesUpdated
    ensures var r, r' := ReportOf(b, opts, i), ReportOf(b, opts, i + 1);
            && r'.filesSeen == r.filesSeen + 1
            && (!opts.dryRun ==>
                  && r'.filesNew == r.filesNew + (if WentIn(b, i, Inserted) then 1 else 0)
                  && r'.filesUpdated == r.filesUpdated + (if WentIn(b, i, Updated) || WentIn(b, i, Unchanged) then 1 else 0)
                  && r'.filesErrored == r.filesErrored + (if AnyWentIn(b, i) then 0 else 1))
            && (b.entries[i].Ok? ==>
                  r'.bytesHashed == (r.bytesHashed + b.entries[i].value.file.size) % 0x1_0000_0000_0000_0000)
  {
    PersistedIff(b, i);
  }
}
