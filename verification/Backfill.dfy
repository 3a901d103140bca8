/**
 The quick-hash backfill loop: hash and store row after row, announcing progress every 100
 processed rows and once more at the end.
 */
module Backfill {
  import opened Prelude
  import opened Hex
  import opened StreamingHash

  const EMIT_EVERY: nat := 100

  // A `files` row without a fingerprint, and the bytes found at its path.
  datatype BackfillRow = BackfillRow(hash: Hash, sizeBytes: nat, content: seq<Byte>)

  // A fingerprint written for the row with this content hash.
  datatype FingerprintWrite = FingerprintWrite(hash: Hash, quick: Hash)

  datatype Report = Report(processed: nat, skippedIoError: nat, skippedNoActiveLocation: nat)

  // What the loop does, in order.
  datatype Mark = Processed | Skipped | Emitted

  // Cancellation is seen first at row `stopAt` (before the row or while waiting for its tick);
  // `hashFails` and `writeFails` say which ports fail for which row.
  datatype Job = Job(rows: seq<BackfillRow>, digest: Digest, stopAt: nat, hashFails: nat -> bool, writeFails: nat -> bool)
  {
    function Handled(): nat {
      Min(stopAt, |rows|)
    }

    function Quick(i: nat): Option<Hash>
      requires i < |rows|
    {
      var covered := CoveredBytes(rows[i].content, rows[i].sizeBytes);
      if hashFails(i) || covered.None? then None else Some(digest(covered.value))
    }

    predicate Succeeds(i: nat)
      requires i < |rows|
    {
      Quick(i).Some? && !writeFails(i)
    }

    // Successes among the first n rows.
    function Successes(n: nat): (k: nat)
      requires n <= |rows|
      ensures k <= n
    {
      if n == 0 then 0 else Successes(n - 1) + (if Succeeds(n - 1) then 1 else 0)
    }

    // Rows skipped right after a boundary announcement, which repeat it.
    function Repeats(n: nat): nat
      requires n <= |rows|
    {
      if n == 0 then 0
      else
        Repeats(n - 1) +
        (if !Succeeds(n - 1) && Successes(n) > 0 && Successes(n) % EMIT_EVERY == 0 then 1 else 0)
    }

    // The writes of the first n rows.
    function Writes(n: nat): seq<FingerprintWrite>
      requires n <= |rows|
    {
      if n == 0 then []
      else Writes(n - 1) + (if Succeeds(n - 1) then [FingerprintWrite(rows[n - 1].hash, Quick(n - 1).value)] else [])
    }
  }

  // Processed rows not announced yet.
  function Pending(trace: seq<Mark>): nat {
    if trace == [] then 0
    else
      match trace[|trace| - 1]
      case Emitted => 0
      case Processed => Pending(trace[..|trace| - 1]) + 1
      case Skipped => Pending(trace[..|trace| - 1])
  }

  // At no point do more than 100 processed rows wait for an announcement.
  ghost predicate NeverLate(trace: seq<Mark>) {
    forall k :: 0 <= k <= |trace| ==> Pending(trace[..k]) <= EMIT_EVERY
  }

  ghost function Count(trace: seq<Mark>, m: Mark): nat {
    multiset(trace)[m]
  }

  lemma TraceGrows(trace: seq<Mark>, m: Mark)
    ensures Pending(trace + [m]) ==
            (match m case Emitted => 0 case Processed => Pending(trace) + 1 case Skipped => Pending(trace))
    ensures NeverLate(trace) && Pending(trace + [m]) <= EMIT_EVERY ==> NeverLate(trace + [m])
    ensures forall x :: Count(trace + [m], x) == Count(trace, x) + (if x == m then 1 else 0)
  {
    var t := trace + [m];
    assert t[..|trace|] == trace;
    assert forall k :: 0 <= k <= |trace| ==> t[..k] == trace[..k];
    assert t[..|t|] == t;
    assert multiset(t) == multiset(trace) + multiset{m};
  }

  // Where the loop stands after n rows: counters, writes, and a trace whose unannounced rows
  // are those past the last multiple of 100.
  ghost predicate Progress(job: Job, n: nat, r: Report, writes: seq<FingerprintWrite>, trace: seq<Mark>)
    requires n <= |job.rows|
  {
    && r == Report(job.Successes(n), n - job.Successes(n), 0)
    && writes == job.Writes(n)
    && NeverLate(trace)
    && Pending(trace) == r.processed % EMIT_EVERY
    && Count(trace, Processed) == r.processed && Count(trace, Skipped) == r.skippedIoError
    && Count(trace, Emitted) == r.processed / EMIT_EVERY + job.Repeats(n)
  }

  // The announcement check at the end of each row.
  function Announce(processed: nat, trace: seq<Mark>): seq<Mark> {
    if processed > 0 && processed % EMIT_EVERY == 0 then trace + [Emitted] else trace
  }

  lemma ProcessedKeeps(job: Job, i: nat, r: Report, writes: seq<FingerprintWrite>, trace: seq<Mark>)
    requires i < |job.rows| && Progress(job, i, r, writes, trace) && job.Succeeds(i)
    ensures Progress(job, i + 1, r.(processed := r.processed + 1),
                     writes + [FingerprintWrite(job.rows[i].hash, job.Quick(i).value)],
                     Announce(r.processed + 1, trace + [Processed]))
  {
    TraceGrows(trace, Processed);
    TraceGrows(trace + [Processed], Emitted);
    NextMultiple(r.processed);
  }

  lemma NextMultiple(n: nat)
    ensures (n + 1) % EMIT_EVERY == 0 ==> n % EMIT_EVERY + 1 == EMIT_EVERY && (n + 1) / EMIT_EVERY == n / EMIT_EVERY + 1
    ensures (n + 1) % EMIT_EVERY != 0 ==>
              (n + 1) % EMIT_EVERY == n % EMIT_EVERY + 1 && (n + 1) / EMIT_EVERY == n / EMIT_EVERY
  {
  }

  lemma SkippedKeeps(job: Job, i: nat, r: Report, writes: seq<FingerprintWrite>, trace: seq<Mark>)
    requires i < |job.rows| && Progress(job, i, r, writes, trace) && !job.Succeeds(i)
    ensures Progress(job, i + 1, r.(skippedIoError := r.skippedIoError + 1), writes,
                     Announce(r.processed, trace + [Skipped]))
  {
    TraceGrows(trace, Skipped);
    TraceGrows(trace + [Skipped], Emitted);
  }

  // The whole run: every row of the handled prefix is processed or skipped; every processed row
  // is announced, never more than 100 at a time; and there are as few announcements as that
  // allows, plus the repeats caused by rows skipped on a boundary.
  ghost predicate Finished(job: Job, n: nat, r: Report, writes: seq<FingerprintWrite>, trace: seq<Mark>)
    requires n <= |job.rows|
  {
    && r == Report(job.Successes(n), n - job.Successes(n), 0)
    && writes == job.Writes(n)
    && NeverLate(trace) && Pending(trace) == 0
    && Count(trace, Processed) == r.processed && Count(trace, Skipped) == r.skippedIoError
    && Count(trace, Emitted) == (r.processed + 99) / 100 + job.Repeats(n)
  }

  // The announcement after the loop.
  function AnnounceRest(processed: nat, trace: seq<Mark>): seq<Mark> {
    if processed % EMIT_EVERY != 0 && processed > 0 then trace + [Emitted] else trace
  }

  lemma RestAnnounced(job: Job, n: nat, r: Report, writes: seq<FingerprintWrite>, trace: seq<Mark>)
    requires n <= |job.rows| && Progress(job, n, r, writes, trace)
    ensures Finished(job, n, r, writes, AnnounceRest(r.processed, trace))
  {
    TraceGrows(trace, Emitted);
  }

  lemma NothingYet(job: Job)
    ensures Progress(job, 0, Report(0, 0, 0), [], [])
  {
  }

  method RunBackfill(job: Job) returns (r: Report, writes: seq<FingerprintWrite>, trace: seq<Mark>)
    ensures Finished(job, job.Handled(), r, writes, trace)
    ensures r.processed + r.skippedIoError == if job.stopAt < |job.rows| then job.stopAt else |job.rows|
  {
    r, writes, trace := Report(0, 0, 0), [], [];
    NothingYet(job);
    var i := 0;
    while i < |job.rows|
      invariant i <= job.Handled()
      invariant Progress(job, i, r, writes, trace)
    {
      if i >= job.stopAt {
        break;
      }
      r, writes, trace := HandleRow(job, i, r, writes, trace);
      i := i + 1;
    }
    assert i == job.Handled();
    RestAnnounced(job, job.Handled(), r, writes, trace);
    trace := AnnounceRest(r.processed, trace);
  }

  method HandleRow(job: Job, i: nat, r0: Report, writes0: seq<FingerprintWrite>, trace0: seq<Mark>)
    returns (r: Report, writes: seq<FingerprintWrite>, trace: seq<Mark>)
    requires i < |job.rows| && Progress(job, i, r0, writes0, trace0)
    ensures Progress(job, i + 1, r, writes, trace)
  {
    var quick := job.Quick(i);
    if quick.Some? && !job.writeFails(i) {
      ProcessedKeeps(job, i, r0, writes0, trace0);
      writes := writes0 + [FingerprintWrite(job.rows[i].hash, quick.value)];
      r, trace := r0.(processed := r0.processed + 1), trace0 + [Processed];
    } else {
      SkippedKeeps(job, i, r0, writes0, trace0);
      writes := writes0;
      r, trace := r0.(skippedIoError := r0.skippedIoError + 1), trace0 + [Skipped];
    }
    if r.processed > 0 && r.processed % EMIT_EVERY == 0 {
      trace := trace + [Emitted];
    }
  }

  // Nothing pending at the end means every processed row has an announcement after it.
  lemma {:induction false} AnnouncedAfter(trace: seq<Mark>, k: nat)
    requires Pending(trace) == 0 && k < |trace| && trace[k].Processed?
    ensures exists j :: k < j < |trace| && trace[j].Emitted?
    decreases |trace|
  {
    var last := trace[|trace| - 1];
    if last.Skipped? {
      AnnouncedAfter(trace[..|trace| - 1], k);
    } else {
      assert last.Emitted?;
    }
  }

  // Never late means no window without an announcement holds more than 100 processed rows.
  lemma {:induction false} WindowBound(trace: seq<Mark>, lo: nat, hi: nat)
    requires NeverLate(trace) && lo <= hi <= |trace|
    requires forall j :: lo <= j < hi ==> !trace[j].Emitted?
    ensures Count(trace[lo..hi], Processed) <= 100
  {
    WindowPending(trace, lo, hi);
    assert Pending(trace[..hi]) <= EMIT_EVERY;
  }

  lemma {:induction false} WindowPending(trace: seq<Mark>, lo: nat, hi: nat)
    requires lo <= hi <= |trace|
    requires forall j :: lo <= j < hi ==> !trace[j].Emitted?
    ensures Pending(trace[..hi]) == Pending(trace[..lo]) + Count(trace[lo..hi], Processed)
    decreases hi
  {
    if lo < hi {
      WindowPending(trace, lo, hi - 1);
      assert trace[..hi] == trace[..hi - 1] + [trace[hi - 1]];
      assert trace[lo..hi] == trace[lo..hi - 1] + [trace[hi - 1]];
      TraceGrows(trace[..hi - 1], trace[hi - 1]);
      TraceGrows(trace[lo..hi - 1], trace[hi - 1]);
    }
  }

  // While no row fails nothing is repeated.
  lemma {:induction false} NoFailureNoRepeat(job: Job, n: nat)
    requires n <= |job.rows| && forall i :: 0 <= i < n ==> job.Succeeds(i)
    ensures job.Successes(n) == n && job.Repeats(n) == 0
    decreases n
  {
    if n > 0 {
      NoFailureNoRepeat(job, n - 1);
    }
  }

  const BLANK: BackfillRow := BackfillRow(seq(HASH_LEN, i => 0), 0, [])

  // A hundred rows go well and announce themselves; the one after them fails, and the same
  // announcement is made again.
  lemma SkippedRowRepeats() returns (job: Job)
    ensures |job.rows| == job.Handled() == EMIT_EVERY + 1
    ensures forall i :: 0 <= i < |job.rows| ==> (job.Succeeds(i) <==> i < EMIT_EVERY)
    ensures job.Repeats(EMIT_EVERY + 1) == 1
  {
    job := Job(seq(EMIT_EVERY + 1, i => BLANK), bytes => BLANK.hash, EMIT_EVERY + 1, i => i == EMIT_EVERY, i => false);
    assert forall i :: 0 <= i < |job.rows| ==> job.rows[i] == BLANK;
    NoFailureNoRepeat(job, EMIT_EVERY);
  }

  // The rows carry their true sizes.
  ghost predicate Measured(job: Job) {
    forall i :: 0 <= i < |job.rows| ==> job.rows[i].sizeBytes == |job.rows[i].content| <= U64_MAX
  }

  // What is written for a row: the digest of its fingerprint bytes, under its content hash, iff
  // neither of its ports fails.
  lemma {:induction false} WritesAt(job: Job, n: nat, i: nat)
    requires Measured(job) && i < n <= |job.rows|
    ensures job.Succeeds(i) <==> !job.hashFails(i) && !job.writeFails(i)
    ensures |job.Writes(i + 1)| == |job.Writes(i)| + (if job.Succeeds(i) then 1 else 0) <= |job.Writes(n)|
    ensures job.Successes(i + 1) == job.Successes(i) + (if job.Succeeds(i) then 1 else 0)
    ensures job.Succeeds(i) ==>
              job.Writes(n)[|job.Writes(i)|] ==
              FingerprintWrite(job.rows[i].hash, job.digest(FingerprintBytes(job.rows[i].content)))
    decreases n
  {
    DeclaredSizeExact(job.rows[i].content, job.rows[i].sizeBytes);
    if i < n - 1 {
      WritesAt(job, n - 1, i);
    }
  }
}
