/**
 The sequential code of the full-hash runner in its own form: starting and cancelling a batch, one
 file's compute, and a batch's loop.
 */
module FullHashMethods {
  import opened Prelude
  import opened Hex
  import opened FullHashBatch

  // The shared state of callers and tasks; the source keeps a mutex around the token map.
  class FullHashUseCase {
    var state: State

    constructor ()
      ensures state == INIT && Reachable(state)
    {
      state := INIT;
      assert Run(INIT, []) == Some(INIT);
    }

    method Step(a: Action)
      requires Reachable(state) && Enabled(state, a)
      modifies this
      ensures state == Do(old(state), a) && Reachable(state)
    {
      Then(state, a);
      state := Do(state, a);
    }

    // Other callers and the tasks take whatever steps of these they can; only the call that took
    // the token of `b` fires it.
    method Others(b: BatchId, acts: seq<Action>)
      requires Reachable(state)
      modifies this
      ensures Reachable(state) && (b in old(state.firing) ==> b in state.firing && b in state.tasks)
      ensures acts == [] ==> state == old(state)
    {
      ReachableInv(state);
      for i := 0 to |acts|
        invariant Reachable(state) && (b in old(state.firing) ==> b in state.firing && b in state.tasks)
        invariant i == 0 ==> state == old(state)
      {
        if Enabled(state, acts[i]) && acts[i] != FireToken(b) {
          Step(acts[i]);
        }
      }
    }

    // One whole cancel_batch call.  It succeeds iff the task is there and nobody cancelled it yet.
    // Once it has returned, whatever happens, the batch reports at most the file it then has in
    // hand.
    method CancelBatch(b: BatchId, between: seq<Action>) returns (ok: bool)
      requires Reachable(state)
      modifies this
      ensures Reachable(state)
      ensures ok <==> old(Cancellable(state, b))
      ensures ok ==>
                && b in state.tasks && b in state.fired
                && forall more :: Run(state, more).Some? ==>
                     && b in Run(state, more).value.tasks
                     && |Run(state, more).value.tasks[b].outcomes| <= Committed(state.tasks[b])
      ensures !ok && between == [] ==> state == old(state)
    {
      CancelOnce(state, b);
      ok := b in state.tokens;
      Step(TakeToken(b));
      Others(b, between);
      if ok {
        Step(FireToken(b));
        forall more | Run(state, more).Some?
          ensures b in Run(state, more).value.tasks
          ensures |Run(state, more).value.tasks[b].outcomes| <= Committed(state.tasks[b])
        {
          CancelStopsBatch(state, more, b);
        }
      }
    }
  }

  // What lookup, hasher and repository answer for one file.
  datatype Ports = Ports(lookup: Answer, hash: Answer, update: Answer) {
    predicate WellTyped() {
      && (lookup.Found? || lookup.Absent? || lookup.Error?)
      && (hash.Hashed? || hash.Error?)
      && (update.Done? || update.Error?)
    }
  }

  // `stored` is the write that reached the repository.
  method ComputeOne(file: FileId, ports: Ports) returns (r: Result<Hash, Failure>, stored: Option<Hash>)
    requires ports.WellTyped()
    ensures r.Ok? <==> ports.lookup.Found? && ports.hash.Hashed? && ports.update.Done?
    ensures r.Ok? ==> ports.hash == Hashed(r.value)
    ensures r.Err? ==>
              && (r.error.NotMounted? <==> ports.lookup.Absent?)
              && (r.error.IoFailure? <==> ports.lookup.Found? && ports.hash.Error?)
    ensures stored == if r.Ok? then Some(r.value) else None
  {
    stored := None;
    if ports.lookup.Error? {
      return Err(RepoFailure), stored;
    }
    if ports.lookup.Absent? {
      return Err(NotMounted), stored;
    }
    if ports.hash.Error? {
      return Err(IoFailure), stored;
    }
    if ports.update.Error? {
      return Err(RepoFailure), stored;
    }
    return Ok(ports.hash.hash), Some(ports.hash.hash);
  }

  // The outcome the protocol settles on for a file whose ports answer like this.
  function Settles(file: FileId, ports: Ports): Outcome
    requires ports.WellTyped()
    ensures var done := FileDone(Task([file], [], LookingUp, [], []), ports.lookup, ports.hash, ports.update);
            done.stage.Reporting? && Settles(file, ports) == done.stage.outcome
  {
    if ports.lookup.Found? && ports.hash.Hashed? && ports.update.Done? then Computed(file, ports.hash.hash)
    else Failed(file, if ports.lookup.Absent? then NotMounted
                      else if ports.lookup.Found? && ports.hash.Error? then IoFailure else RepoFailure)
  }

  function SettlesAll(files: seq<FileId>, ports: nat -> Ports, n: nat): (outcomes: seq<Outcome>)
    requires n <= |files| && forall i :: 0 <= i < n ==> ports(i).WellTyped()
    ensures |outcomes| == n
  {
    if n == 0 then [] else SettlesAll(files, ports, n - 1) + [Settles(files[n - 1], ports(n - 1))]
  }

  lemma {:induction false} SettledAt(files: seq<FileId>, ports: nat -> Ports, n: nat)
    requires n <= |files| && forall i :: 0 <= i < |files| ==> ports(i).WellTyped()
    ensures forall i :: 0 <= i < n ==> SettlesAll(files, ports, n)[i] == Settles(files[i], ports(i))
  {
    if n > 0 {
      SettledAt(files, ports, n - 1);
    }
  }

  predicate IsReport(e: Event, b: BatchId, outcome: Outcome) {
    e.VerifyProgress? && e.batch == b && e.outcome == outcome
  }

  // The reports of the first n files, one by one.
  lemma Numbered(b: BatchId, files: seq<FileId>, ports: nat -> Ports, n: nat)
    requires n <= |files| && forall i :: 0 <= i < |files| ==> ports(i).WellTyped()
    ensures var reports := Reports(b, |files|, SettlesAll(files, ports, n));
            |reports| == n
            && forall i :: 0 <= i < n ==>
                 && IsReport(reports[i], b, Settles(files[i], ports(i)))
                 && reports[i].filesDone == (if i < 4294967295 then i + 1 else 4294967295)
                 && reports[i].filesTotal == (if |files| <= 4294967295 then |files| else 4294967295)
  {
    SettledAt(files, ports, n);
  }

  // A batch that sees its token fired when about to take file `stopAt`: it reports and stores the
  // outcomes of the files before, numbered with saturating u32 counters, and then completes.
  method RunTask(b: BatchId, files: seq<FileId>, ports: nat -> Ports, stopAt: nat)
    returns (events: seq<Event>, writes: seq<RepoWrite>)
    requires forall i :: 0 <= i < |files| ==> ports(i).WellTyped()
    ensures writes == StoredBy(b, SettlesAll(files, ports, Min(stopAt, |files|)))
    ensures |events| == Min(stopAt, |files|) + 1 && events[|events| - 1] == VerifyComplete(b)
    ensures forall i :: 0 <= i < |events| - 1 ==> IsReport(events[i], b, Settles(files[i], ports(i)))
    ensures forall i :: 0 <= i < |events| - 1 ==>
              && events[i].VerifyProgress?
              && events[i].filesDone == (if i < 4294967295 then i + 1 else 4294967295)
              && events[i].filesTotal == (if |files| <= 4294967295 then |files| else 4294967295)
  {
    events, writes := VerifyFiles(b, files, ports, stopAt);
    Numbered(b, files, ports, Min(stopAt, |files|));
    events := events + [VerifyComplete(b)];
  }

  // The loop over the files.
  method VerifyFiles(b: BatchId, files: seq<FileId>, ports: nat -> Ports, stopAt: nat)
    returns (events: seq<Event>, writes: seq<RepoWrite>)
    requires forall i :: 0 <= i < |files| ==> ports(i).WellTyped()
    ensures var outcomes := SettlesAll(files, ports, Min(stopAt, |files|));
            events == Reports(b, |files|, outcomes) && writes == StoredBy(b, outcomes)
  {
    events, writes := [], [];
    var filesTotal := if |files| <= U32_MAX then |files| else U32_MAX;
    var filesDone := 0;
    var i := 0;
    while i < |files| && i < stopAt
      invariant i <= Min(stopAt, |files|)
      invariant filesDone == CapU32(i)
      invariant events == Reports(b, |files|, SettlesAll(files, ports, i))
      invariant writes == StoredBy(b, SettlesAll(files, ports, i))
    {
      OneMoreOutcome(b, files, ports, i);
      filesDone := if filesDone < U32_MAX then filesDone + 1 else U32_MAX;
      var event, stored := VerifyOne(b, files[i], ports(i), filesDone, filesTotal);
      events, writes := events + [event], writes + stored;
      i := i + 1;
    }
    assert i == Min(stopAt, |files|);
  }

  // One file of a batch: its progress report, and the write that reached the repository.
  method VerifyOne(b: BatchId, file: FileId, ports: Ports, filesDone: nat, filesTotal: nat)
    returns (event: Event, writes: seq<RepoWrite>)
    requires ports.WellTyped()
    ensures event == VerifyProgress(b, filesDone, filesTotal, Settles(file, ports))
    ensures writes == StoredFor(b, Settles(file, ports))
  {
    var r, stored := ComputeOne(file, ports);
    var outcome := match r case Ok(h) => Computed(file, h) case Err(why) => Failed(file, why);
    event := VerifyProgress(b, filesDone, filesTotal, outcome);
    writes := if stored.Some? then [RepoWrite(b, file, stored.value)] else [];
  }

  function StoredFor(b: BatchId, outcome: Outcome): seq<RepoWrite> {
    if outcome.Computed? then [RepoWrite(b, outcome.file, outcome.hash)] else []
  }

  lemma OneMoreOutcome(b: BatchId, files: seq<FileId>, ports: nat -> Ports, i: nat)
    requires i < |files| && forall j :: 0 <= j < |files| ==> ports(j).WellTyped()
    ensures var before, last := SettlesAll(files, ports, i), Settles(files[i], ports(i));
            var after := SettlesAll(files, ports, i + 1);
            && after == before + [last]
            && Reports(b, |files|, after) ==
               Reports(b, |files|, before) + [VerifyProgress(b, CapU32(i + 1), CapU32(|files|), last)]
            && StoredBy(b, after) ==
               StoredBy(b, before) + StoredFor(b, last)
  {
    var before, after := SettlesAll(files, ports, i), SettlesAll(files, ports, i + 1);
    assert after[..i] == before;
  }
}
