/**
 The promises of the transcription queue, over every reachable state and every run.
 */
module TranscriptionTheorems {
  import opened Prelude
  import opened Transcription
  import opened TranscriptionInvariants

  // ---------------------------------------------------------------------------
  // One Started and one terminal event per accepted job
  // ---------------------------------------------------------------------------

  lemma EventsNeedStart(s: State, e: Event)
    requires Fifo(s) && e in s.log
    ensures e.id in StartedIds(s.log)
  {
    var j :| 0 <= j < |s.log| && s.log[j] == e;
    assert s.log == s.log[..j] + s.log[j..];
    StartedIdsConcat(s.log[..j], s.log[j..]);
    assert s.log[j..][0] == e;
    if e.Started? {
      StartedIdsConcat([e], s.log[j..][1..]);
      assert s.log[j..] == [e] + s.log[j..][1..];
      StartedIdsGrow([], e);
      assert [] + [e] == [e];
    }
  }

  lemma {:induction false} StartedIdsConcat(a: seq<Event>, b: seq<Event>)
    ensures StartedIds(a + b) == StartedIds(a) + StartedIds(b)
    decreases |b|
  {
    if b == [] {
      assert a + b == a;
    } else {
      var e := b[|b| - 1];
      var front := b[..|b| - 1];
      assert b == front + [e];
      assert a + b == (a + front) + [e];
      StartedIdsConcat(a, front);
      StartedIdsGrow(a + front, e);
      StartedIdsGrow(front, e);
    }
  }

  lemma InLog(log: seq<Event>, e: Event)
    ensures e in log <==> multiset(log)[e] > 0
  {
    assert e in log <==> e in multiset(log);
  }

  // At any moment of any interleaving: jobs start in enqueue order, nothing precedes a job's
  // Started event, no job has two terminal events, and a job that was not accepted has none.
  lemma EventsAtAnyTime(s: State)
    requires Reachable(s)
    ensures StartedIds(s.log) <= s.intake.accepted && Distinct(s.intake.accepted)
    ensures StartedFirst(s.log)
    ensures forall id :: Terminals(s.log, id) <= 1
    ensures forall e :: e in s.log ==> e.id in s.intake.accepted
    ensures forall id :: id in s.intake.returned && s.intake.returned[id].QueueFull? ==>
              forall e :: e in s.log ==> e.id != id
  {
    ReachableInv(s);
    StartsInOrder(s);
    OneTerminal(s);
    EventsOfAccepted(s);
    RejectedIsSilent(s);
  }

  lemma StartsInOrder(s: State)
    requires Fifo(s)
    ensures StartedIds(s.log) <= s.intake.accepted
  {
    assert s.intake.accepted == StartedIds(s.log) + (Unstarted(s.worker) + s.queue);
  }

  lemma OneTerminal(s: State)
    requires Emissions(s)
    ensures forall id :: Terminals(s.log, id) <= 1
  {
    forall id ensures Terminals(s.log, id) <= 1 {
      assert EmissionsOf(s, id);
    }
  }

  lemma EventsOfAccepted(s: State)
    requires Fifo(s)
    ensures forall e :: e in s.log ==> e.id in s.intake.accepted
  {
    StartsInOrder(s);
    forall e | e in s.log ensures e.id in s.intake.accepted {
      EventsNeedStart(s, e);
    }
  }

  lemma RejectedIsSilent(s: State)
    requires Fifo(s) && Stages(s.intake)
    ensures forall id :: id in s.intake.returned && s.intake.returned[id].QueueFull? ==>
              forall e :: e in s.log ==> e.id != id
  {
    EventsOfAccepted(s);
  }

  // A finished job has its one terminal event, except exactly while the writer, which
  // replies before it emits, still owes the job's Completed.
  lemma FinishedHasTerminal(s: State, id: JobId)
    requires Reachable(s) && Finished(s, id)
    ensures Terminals(s.log, id) == 1 <==> s.writer != WEmit(id)
    ensures Terminals(s.log, id) == 0 ==> id in s.db.headers
    ensures WorkerTerminals(s.log, id) == 1 <==> id !in s.db.headers
  {
    ReachableInv(s);
    assert EmissionsOf(s, id);
  }

  // Once everything has come to rest, every accepted job was started once and got exactly one
  // terminal event: Completed when its transcript is stored, Cancelled or Failed when not.
  lemma ExactlyOneTerminal(s: State)
    requires Reachable(s) && Quiescent(s)
    ensures StartedIds(s.log) == s.intake.accepted && Distinct(s.intake.accepted)
    ensures forall id :: id in s.intake.accepted ==> Terminals(s.log, id) == 1
    ensures forall id :: id in s.intake.accepted ==> (Completed(id) in s.log <==> id in s.db.headers)
    ensures forall id :: id !in s.intake.accepted ==> Terminals(s.log, id) == 0
  {
    ReachableInv(s);
    assert StartedIds(s.log) + [] + [] == StartedIds(s.log);
    forall id
      ensures id in s.intake.accepted ==> Terminals(s.log, id) == 1
      ensures id in s.intake.accepted ==> (Completed(id) in s.log <==> id in s.db.headers)
      ensures id !in s.intake.accepted ==> Terminals(s.log, id) == 0
    {
      assert EmissionsOf(s, id);
      assert Completed(id) in s.log <==> Completed(id) in multiset(s.log);
    }
  }

  // ---------------------------------------------------------------------------
  // Persistence
  // ---------------------------------------------------------------------------

  function WithTranscript(t: Tables, id: JobId, rows: seq<Segment>): Tables {
    t.(headers := t.headers + {id}, rows := t.rows[id := rows])
  }

  // A transcript is stored as the adapter returned it, apart from ids the adapter left nil.
  ghost predicate StoresStamped(s: State, id: JobId, rows: seq<Segment>) {
    id in s.produced && StampOf(s.produced[id], rows)
  }

  // No action changes the tables except a successful commit, which adds the one transcript
  // the worker is waiting for, header and all segments together; no stored row has an id that
  // was put in place of a nil one.
  lemma CommitIsAtomic(s: State, a: Action)
    requires Reachable(s) && Enabled(s, a)
    ensures Do(s, a).db == s.db
         || (s.worker.Waiting? && s.worker.id !in s.db.headers && s.worker.id in s.stamped
             && Do(s, a).db == WithTranscript(s.db, s.worker.id, s.stamped[s.worker.id])
             && StoresStamped(s, s.worker.id, s.stamped[s.worker.id])
             && NewKeys(s, s.worker.id))
  {
    ReachableInv(s);
    match a
    case Call(c) => CallerFrame(s, c);
    case Work(w) => WorkerLog(s, w);
    case Write(x) =>
      WriterCommits(s, x);
      if x.Commit? && x.ok {
        assert StampedFrom(s, s.worker.id);
      }
  }

  lemma WriterCommits(s: State, x: WriterAction)
    requires Link(s) && Stored(s) && WriterEnabled(s, x)
    ensures x.Commit? && x.ok ==>
              && s.worker.Waiting? && s.worker.id !in s.db.headers && s.worker.id in s.stamped
              && DoWriter(s, x).db == WithTranscript(s.db, s.worker.id, s.stamped[s.worker.id])
    ensures !(x.Commit? && x.ok) ==> DoWriter(s, x).db == s.db
  {
    if x.Commit? {
      assert s.writer.segments[..s.writer.k] == s.writer.segments;
    }
  }

  lemma CallerFrame(s: State, c: CallerAction)
    requires CallerEnabled(s, c)
    ensures DoCaller(s, c).db == s.db && DoCaller(s, c).writer == s.writer
    ensures s.tokens.fired <= DoCaller(s, c).tokens.fired
  {
  }

  // Completed is emitted for a job iff its whole transcript is committed (and no longer owed).
  lemma CompletedIffStored(s: State, id: JobId)
    requires Reachable(s)
    ensures Completed(id) in s.log <==> id in s.db.headers && !Owed(s.writer, id)
    ensures id in s.db.headers ==> id in s.db.rows && StoresStamped(s, id, s.db.rows[id])
    ensures id in s.db.headers <==> id in s.db.rows
  {
    ReachableInv(s);
    assert EmissionsOf(s, id);
    assert Completed(id) in s.log <==> Completed(id) in multiset(s.log);
    if id in s.db.headers {
      assert Carries(s, id, s.db.rows[id]);
      assert StampedFrom(s, id);
    }
  }

  // No two stored segments share an id, and none has the nil id.
  lemma SegmentIdsAreKeys(s: State)
    requires Reachable(s)
    ensures Unique(s.db)
    ensures KeyFree(s.db, 0)
  {
    ReachableInv(s);
    forall id, i | id in s.db.rows && 0 <= i < |s.db.rows[id]| ensures s.db.rows[id][i].id != 0 {
      CompletedIffStored(s, id);
    }
  }

  // A row stored for another job, or by an earlier process, has this id.
  ghost predicate HeldElsewhere(t: Tables, id: JobId, key: nat) {
    || key in t.earlier
    || exists other, i ::
         other in t.rows && other != id && 0 <= i < |t.rows[other]| && t.rows[other][i].id == key
  }

  // The adapter itself assigned this id, and it is taken: by a stored row of another transcript,
  // or earlier in the same answer.
  ghost predicate AdapterClash(s: State, id: JobId, k: nat)
    requires id in s.produced && k < |s.produced[id]|
  {
    var raw := s.produced[id];
    raw[k].id != 0 && (HeldElsewhere(s.db, id, raw[k].id) || exists j :: 0 <= j < k && raw[j].id == raw[k].id)
  }

  // Exactly when the primary key refuses a segment: never because of an id the worker minted.
  lemma RefusedIffAdapterClash(s: State)
    requires Reachable(s) && s.writer.WInsert?
    ensures s.writer.id in s.produced && s.writer.k < |s.writer.segments| == |s.produced[s.writer.id]|
    ensures KeyFree(s.writer.tx, s.writer.segments[s.writer.k].id) <==> !AdapterClash(s, s.writer.id, s.writer.k)
  {
    ReachableInv(s);
    RefusedIff(s);
  }

  lemma RefusedIff(s: State)
    requires Link(s) && Stored(s) && Stamps(s) && Keys(s) && s.writer.WInsert?
    ensures s.writer.id in s.produced && s.writer.k < |s.writer.segments| == |s.produced[s.writer.id]|
    ensures KeyFree(s.writer.tx, s.writer.segments[s.writer.k].id) <==> !AdapterClash(s, s.writer.id, s.writer.k)
  {
    var id, segments, k := s.writer.id, s.writer.segments, s.writer.k;
    assert StampedFrom(s, id) && NewKeys(s, id);
    TxFree(s, segments[k].id);
    var raw := s.produced[id];
    assert forall j :: 0 <= j < k && raw[k].id != 0 ==> (segments[j].id == segments[k].id <==> raw[j].id == raw[k].id);
  }

  // An id is free in the open transaction iff no stored row and no row inserted so far has it.
  lemma TxFree(s: State, key: nat)
    requires Link(s) && Stored(s) && s.writer.WInsert?
    ensures KeyFree(s.writer.tx, key) <==>
            KeyFree(s.db, key) && forall j :: 0 <= j < s.writer.k ==> s.writer.segments[j].id != key
  {
    var rows, own := s.writer.tx.rows, s.writer.segments[..s.writer.k];
    assert s.writer.id !in s.db.rows && rows[s.writer.id] == own;
    assert forall id :: id in s.db.rows ==> rows[id] == s.db.rows[id];
    if KeyFree(s.writer.tx, key) {
      assert forall j :: 0 <= j < s.writer.k ==> rows[s.writer.id][j].id == s.writer.segments[j].id;
    }
  }

  // The writer has passed its last look at the job's token with nothing refused so far, or has
  // already committed.
  predicate PastLastCheck(s: State, id: JobId) {
    || id in s.db.headers
    || (s.writer.WHeader? && s.writer.id == id && s.writer.segments == [])
    || (s.writer.WCheck? && s.writer.id == id && s.writer.k >= |s.writer.segments|)
    || (s.writer.WInsert? && s.writer.id == id && s.writer.k + 1 == |s.writer.segments|
        && KeyFree(s.writer.tx, s.writer.segments[s.writer.k].id))
  }

  lemma FiredStaysBlocked(s: State, a: Action, id: JobId)
    requires Inv(s) && Enabled(s, a) && id in s.tokens.fired && !PastLastCheck(s, id)
    ensures id in Do(s, a).tokens.fired && !PastLastCheck(Do(s, a), id)
  {
    match a
    case Call(c) => CallerFrame(s, c);
    case Work(w) => WorkerKeepsFired(s, w);
    case Write(x) =>
      WriterFrame(s, x);
      WriterStaysBlocked(s, x, id);
  }

  lemma WriterStaysBlocked(s: State, x: WriterAction, id: JobId)
    requires Link(s) && Stored(s) && WriterEnabled(s, x) && id in s.tokens.fired && !PastLastCheck(s, id)
    ensures !PastLastCheck(DoWriter(s, x), id)
  {
  }

  lemma WorkerKeepsFired(s: State, w: WorkerAction)
    requires WorkerEnabled(s, w)
    ensures DoWorker(s, w).tokens.fired == s.tokens.fired
    ensures DoWorker(s, w).db == s.db && DoWorker(s, w).writer == s.writer
  {
  }

  lemma {:induction false} FiredNeverStored(s: State, more: seq<Action>, id: JobId)
    requires Inv(s) && id in s.tokens.fired && !PastLastCheck(s, id)
    requires Run(s, more).Some?
    ensures id !in Run(s, more).value.db.headers
    decreases |more|
  {
    if more != [] {
      FiredStaysBlocked(s, more[0], id);
      StepKeepsInv(s, more[0]);
      FiredNeverStored(Do(s, more[0]), more[1..], id);
    }
  }

  // The job is being handed to the writer, or has been.
  predicate HandedOver(s: State, id: JobId) {
    (s.worker.Submitting? || s.worker.Waiting?) && s.worker.id == id
  }

  lemma FiredStaysBack(s: State, a: Action, id: JobId)
    requires Enabled(s, a) && id in s.tokens.fired && !HandedOver(s, id)
    ensures id in Do(s, a).tokens.fired && !HandedOver(Do(s, a), id)
  {
    match a
    case Call(c) =>
      CallerFrame(s, c);
      CallerLeaves(s, c);
    case Work(w) => WorkerKeepsFired(s, w);
    case Write(x) => WriterFrame(s, x);
  }

  // A token that has fired before the worker's own check keeps the job from the writer altogether.
  lemma {:induction false} FiredNeverSubmitted(s: State, more: seq<Action>, id: JobId)
    requires id in s.tokens.fired && !HandedOver(s, id) && Run(s, more).Some?
    ensures !HandedOver(Run(s, more).value, id)
    decreases |more|
  {
    if more != [] {
      FiredStaysBack(s, more[0], id);
      FiredNeverSubmitted(Do(s, more[0]), more[1..], id);
    }
  }

  // Past the last check the writer alone can finish the commit, whatever the token says.
  lemma LateFireStores(s: State, id: JobId) returns (more: seq<Action>)
    requires Inv(s) && PastLastCheck(s, id)
    ensures Run(s, more).Some? && id in Run(s, more).value.db.headers
  {
    if id in s.db.headers {
      return [];
    }
    var commit := Write(Commit(true));
    if s.writer.WCheck? {
      more := [commit];
      assert Run(Do(s, commit), more[1..]) == Some(Do(s, commit));
    } else {
      var insert := if s.writer.WHeader? then Write(InsertHeader(true)) else Write(InsertSegment(true));
      var s1 := Do(s, insert);
      more := [insert, commit];
      assert more[1..] == [commit];
      assert Run(Do(s1, commit), [commit][1..]) == Some(Do(s1, commit));
      assert Run(s1, [commit]) == Some(Do(s1, commit));
    }
  }

  // Exactly when a fired token comes too late: a job whose token has fired can still end up
  // stored iff the writer has already made its last check of that token.
  lemma CancelWindow(s: State, id: JobId)
    requires Reachable(s) && id in s.tokens.fired
    ensures (exists more :: Run(s, more).Some? && id in Run(s, more).value.db.headers) <==> PastLastCheck(s, id)
  {
    ReachableInv(s);
    if PastLastCheck(s, id) {
      var more := LateFireStores(s, id);
    } else {
      forall more | Run(s, more).Some? ensures id !in Run(s, more).value.db.headers {
        FiredNeverStored(s, more, id);
      }
    }
  }

  // ---------------------------------------------------------------------------
  // The token map
  // ---------------------------------------------------------------------------

  // The map holds the tokens of exactly the jobs being started, queued or run that no Cancel
  // has taken; so at rest it is empty.
  lemma TokensNeverLeak(s: State)
    requires Reachable(s)
    ensures forall id :: id in s.tokens.cancels <==>
              Held(s, id) && id !in s.tokens.firing && id !in s.tokens.fired
    ensures Quiescent(s) ==> s.tokens.cancels == {}
  {
    ReachableInv(s);
  }

  // A Cancel for a job that is held and not yet cancelled gets its token, and fires it.
  lemma CancelReaches(s: State, id: JobId)
    requires Reachable(s) && Held(s, id) && id !in s.tokens.firing && id !in s.tokens.fired
    ensures var taken := Do(s, Call(TakeToken(id)));
            && Enabled(taken, Call(FireToken(id)))
            && id in Do(taken, Call(FireToken(id))).tokens.fired
            && Do(taken, Call(TakeToken(id))) == taken
  {
    ReachableInv(s);
  }

  // Stage by stage, what that covers: from the insertion of the token until the worker lets go of
  // the job, or its Start call is rejected, a first Cancel gets the token and fires it.
  lemma CancelReachesStages(s: State, id: JobId)
    requires Reachable(s) && id !in s.tokens.firing && id !in s.tokens.fired
    requires || id in s.intake.tokenInserted || id in s.intake.lenRead || id in s.intake.rejected
             || id in s.queue || (!s.worker.Idle? && s.worker.id == id)
    ensures id in s.tokens.cancels && id in Do(s, Call(TakeToken(id))).tokens.firing
    ensures id in Do(Do(s, Call(TakeToken(id))), Call(FireToken(id))).tokens.fired
  {
    CancelReaches(s, id);
    TokensNeverLeak(s);
  }

  // A Cancel for an id that is unknown, rejected, or done changes nothing at all.
  lemma CancelIsNoOp(s: State, id: JobId)
    requires Reachable(s)
    requires || id !in s.intake.used
             || (id in s.intake.returned && s.intake.returned[id].QueueFull?)
             || (id in StartedIds(s.log) && !InHand(s.worker, id))
    ensures Do(s, Call(TakeToken(id))) == s
  {
    ReachableInv(s);
    AcceptedSplit(s, id);
  }

  // Neither half of a Cancel touches anything but the token of the job it names.
  lemma CancelTouchesOneToken(s: State, id: JobId, other: JobId, fire: bool)
    requires other != id
    requires fire ==> id in s.tokens.firing
    ensures var s' := Do(s, Call(if fire then FireToken(id) else TakeToken(id)));
            && s' == s.(tokens := s'.tokens)
            && (other in s'.tokens.cancels <==> other in s.tokens.cancels)
            && (other in s'.tokens.firing <==> other in s.tokens.firing)
            && (other in s'.tokens.fired <==> other in s.tokens.fired)
  {
  }

  // ---------------------------------------------------------------------------
  // Queue bounds
  // ---------------------------------------------------------------------------

  lemma QueueBounds(s: State)
    requires Reachable(s)
    ensures |s.queue| <= 32
    ensures forall id :: id in s.intake.returned && s.intake.returned[id].Enqueued? ==>
              1 <= s.intake.returned[id].position <= 33
    ensures forall id :: id in s.intake.returned && s.intake.returned[id].QueueFull? ==>
              s.intake.returned[id].queued <= 32
    ensures forall e :: e in s.log && e.Started? ==> 1 <= e.queueSize <= 33
    ensures forall id :: id in s.intake.returned ==> (s.intake.returned[id].Enqueued? <==> id in s.intake.accepted)
  {
    ReachableInv(s);
  }

  // ---------------------------------------------------------------------------
  // Progress
  // ---------------------------------------------------------------------------

  ghost function Progresses(log: seq<Event>, id: JobId): nat {
    multiset(log)[Progress(id)]
  }

  lemma StepProgress(s: State, a: Action, id: JobId)
    requires Enabled(s, a)
    ensures Progresses(Do(s, a).log, id) == Progresses(s.log, id) + (if a == Work(EmitProgress(id)) then 1 else 0)
  {
    match a
    case Call(c) => CallerLeaves(s, c);
    case Work(w) => WorkerProgress(s, w, id);
    case Write(x) =>
      WriterFrame(s, x);
      if x.EmitCompleted? {
        assert multiset(Do(s, a).log) == multiset(s.log) + multiset{Completed(s.writer.id)};
      }
  }

  lemma WorkerProgress(s: State, w: WorkerAction, id: JobId)
    requires WorkerEnabled(s, w)
    ensures Progresses(DoWorker(s, w).log, id) == Progresses(s.log, id) + (if w == EmitProgress(id) then 1 else 0)
  {
    WorkerAppends(s, w);
    WorkerSaysProgress(s, w, id);
    if WorkerEmits(s, w).Some? {
      assert multiset(DoWorker(s, w).log) == multiset(s.log) + multiset{WorkerEmits(s, w).value};
    }
  }

  lemma WorkerSaysProgress(s: State, w: WorkerAction, id: JobId)
    requires WorkerEnabled(s, w)
    ensures WorkerEmits(s, w) == Some(Progress(id)) <==> w == EmitProgress(id)
  {
  }

  // Each report of an adapter is passed on as one Progress event of the job it is about, and
  // there are no others.
  lemma {:induction false} ProgressPerReport(s: State, acts: seq<Action>, id: JobId)
    requires Run(s, acts).Some?
    ensures Progresses(Run(s, acts).value.log, id) == Progresses(s.log, id) + multiset(acts)[Work(EmitProgress(id))]
    decreases |acts|
  {
    if acts != [] {
      assert acts == [acts[0]] + acts[1..];
      StepProgress(s, acts[0], id);
      ProgressPerReport(Do(s, acts[0]), acts[1..], id);
    }
  }
}
