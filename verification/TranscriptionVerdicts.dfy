/**
 Which terminal event a job gets: Cancelled only after its token fired, Failed without any
 breakdown only when the adapter itself assigned a segment id that is taken.
 */
module TranscriptionVerdicts {
  import opened Prelude
  import opened Transcription
  import opened TranscriptionInvariants
  import opened TranscriptionTheorems
  import opened TranscriptionOvertaking

  // The adapter reports a cancellation only when the job's token has fired.
  predicate Honest(s: State, a: Action) {
    a == Work(AdapterErr(true)) && s.worker.Transcribing? ==> s.worker.id in s.tokens.fired
  }

  // The primary key refuses the segment the writer is about to insert.
  predicate Refused(s: State) {
    && s.writer.WInsert? && s.writer.k < |s.writer.segments|
    && !KeyFree(s.writer.tx, s.writer.segments[s.writer.k].id)
  }

  // No backend, adapter, statement or writer breaks down in this step; a segment may still be
  // refused by the primary key.
  predicate FaultFree(s: State, a: Action) {
    match a
    case Call(_) => true
    case Work(w) => w != ResolveBackend(false) && w != AdapterErr(false)
    case Write(x) =>
      && x != Begin(false) && x != InsertHeader(false) && x != Commit(false) && !x.Shutdown?
      && (x == InsertSegment(false) ==> Refused(s))
  }

  predicate AllFaultFree(s: State, acts: seq<Action>)
    decreases |acts|
  {
    acts != [] && Enabled(s, acts[0]) ==> FaultFree(s, acts[0]) && AllFaultFree(Do(s, acts[0]), acts[1..])
  }

  predicate AllHonest(s: State, acts: seq<Action>)
    decreases |acts|
  {
    acts != [] && Enabled(s, acts[0]) ==> Honest(s, acts[0]) && AllHonest(Do(s, acts[0]), acts[1..])
  }

  // Cancelled is said, or about to be said, of fired jobs only.
  ghost predicate CancelledMeansFired(s: State) {
    && (forall id :: Cancelled(id) in s.log ==> id in s.tokens.fired)
    && (s.writer.WReply? && s.writer.result.WriteCancelled? ==> s.writer.id in s.tokens.fired)
    && (s.reply == Some(WriteCancelled) ==> s.worker.Waiting? && s.worker.id in s.tokens.fired)
  }

  // Some segment id the adapter assigned in its answer for this job is taken.
  ghost predicate Clashes(s: State, id: JobId) {
    id in s.produced && exists k :: 0 <= k < |s.produced[id]| && AdapterClash(s, id, k)
  }

  // Failed is said, or about to be said, of jobs with a clash only.
  ghost predicate OnlyClashesFail(s: State) {
    && (forall id :: Failed(id) in s.log ==> Clashes(s, id))
    && (s.writer.WReply? && s.writer.result.WriteFailed? ==> Clashes(s, s.writer.id))
    && (s.reply == Some(WriteFailed) ==> s.worker.Waiting? && Clashes(s, s.worker.id))
    && !s.writer.WStopped?
  }

  // --- Cancelled ---

  lemma CallerKeepsFired(s: State, c: CallerAction)
    requires CallerEnabled(s, c) && CancelledMeansFired(s)
    ensures CancelledMeansFired(DoCaller(s, c))
  {
    CallerLeaves(s, c);
    CallerFrame(s, c);
  }

  lemma WorkerReply(s: State, w: WorkerAction)
    requires Link(s) && WorkerEnabled(s, w)
    ensures DoWorker(s, w).reply == s.reply || DoWorker(s, w).reply.None?
    ensures DoWorker(s, w).reply.Some? ==> DoWorker(s, w).worker == s.worker
  {
  }

  lemma WorkerCancels(s: State, w: WorkerAction)
    requires WorkerEnabled(s, w) && CancelledMeansFired(s) && Honest(s, Work(w))
    ensures forall id :: WorkerEmits(s, w) == Some(Cancelled(id)) ==> id in s.tokens.fired
  {
  }

  lemma WorkerKeepsCancelled(s: State, w: WorkerAction)
    requires Link(s) && WorkerEnabled(s, w) && CancelledMeansFired(s) && Honest(s, Work(w))
    ensures CancelledMeansFired(DoWorker(s, w))
  {
    WorkerCancels(s, w);
    WorkerReply(s, w);
    WorkerLog(s, w);
    WorkerKeepsFired(s, w);
  }

  lemma WriterKeepsCancelled(s: State, x: WriterAction)
    requires Link(s) && WriterEnabled(s, x) && CancelledMeansFired(s)
    ensures CancelledMeansFired(DoWriter(s, x))
  {
    WriterFrame(s, x);
  }

  lemma {:induction false} RunKeepsCancelled(s: State, acts: seq<Action>)
    requires Inv(s) && Run(s, acts).Some? && AllHonest(s, acts) && CancelledMeansFired(s)
    ensures CancelledMeansFired(Run(s, acts).value)
    decreases |acts|
  {
    if acts != [] {
      StepKeepsInv(s, acts[0]);
      match acts[0] {
        case Call(c) => CallerKeepsFired(s, c);
        case Work(w) => WorkerKeepsCancelled(s, w);
        case Write(x) => WriterKeepsCancelled(s, x);
      }
      RunKeepsCancelled(Do(s, acts[0]), acts[1..]);
    }
  }

  // With honest adapters a job is reported Cancelled only if its token fired.
  lemma CancelledOnlyIfFired(start: State, acts: seq<Action>, id: JobId)
    requires Initial(start) && Run(start, acts).Some? && AllHonest(start, acts)
    ensures Cancelled(id) in Run(start, acts).value.log ==> id in Run(start, acts).value.tokens.fired
  {
    InitInv(start);
    RunKeepsCancelled(start, acts);
  }

  // --- Failed ---

  lemma HeldElsewhereStays(t: Tables, t': Tables, id: JobId, key: nat)
    requires HeldElsewhere(t, id, key) && t'.earlier == t.earlier
    requires forall other :: other in t.rows ==> other in t'.rows && t'.rows[other] == t.rows[other]
    ensures HeldElsewhere(t', id, key)
  {
    if key !in t.earlier {
      var other, i :| other in t.rows && other != id && 0 <= i < |t.rows[other]| && t.rows[other][i].id == key;
      assert t'.rows[other][i].id == key;
    }
  }

  lemma ClashStays(s: State, s': State, id: JobId)
    requires Clashes(s, id) && id in s'.produced && s'.produced[id] == s.produced[id]
    requires s'.db.earlier == s.db.earlier
    requires forall other :: other in s.db.rows ==> other in s'.db.rows && s'.db.rows[other] == s.db.rows[other]
    ensures Clashes(s', id)
  {
    var k :| 0 <= k < |s.produced[id]| && AdapterClash(s, id, k);
    if HeldElsewhere(s.db, id, s.produced[id][k].id) {
      HeldElsewhereStays(s.db, s'.db, id, s.produced[id][k].id);
    }
    assert AdapterClash(s', id, k);
  }

  // The adapter answers for a job only while it has no terminal event.
  lemma FailedIsDone(s: State, id: JobId)
    requires Emissions(s) && Link(s) && Failed(id) in s.log
    ensures !(s.worker.Transcribing? && s.worker.id == id)
  {
    assert EmissionsOf(s, id);
    InLog(s.log, Failed(id));
  }

  // A clash outlives every step but the adapter's answer for the job itself.
  lemma StepKeepsClash(s: State, a: Action, id: JobId)
    requires Link(s) && Stored(s) && Enabled(s, a) && Clashes(s, id)
    requires !(s.worker.Transcribing? && s.worker.id == id)
    ensures Clashes(Do(s, a), id)
  {
    match a {
      case Call(c) => CallerLeaves(s, c);
      case Work(w) =>
        WorkerLog(s, w);
        WorkerSegments(s, w);
      case Write(x) =>
        WriterLeaves(s, x);
        WriterCommits(s, x);
    }
    ClashStays(s, Do(s, a), id);
  }

  lemma WorkerFails(s: State, w: WorkerAction)
    requires Link(s) && WorkerEnabled(s, w) && OnlyClashesFail(s) && FaultFree(s, Work(w))
    ensures forall id :: WorkerEmits(s, w) == Some(Failed(id)) ==> s.worker.Waiting? && Clashes(s, id)
  {
  }

  lemma WorkerKeepsFailed(s: State, w: WorkerAction)
    requires Inv(s) && WorkerEnabled(s, w) && OnlyClashesFail(s) && FaultFree(s, Work(w))
    ensures OnlyClashesFail(DoWorker(s, w))
  {
    var s' := DoWorker(s, w);
    WorkerFails(s, w);
    WorkerReply(s, w);
    WorkerLog(s, w);
    forall id | Failed(id) in s'.log ensures Clashes(s', id) {
      if Failed(id) in s.log {
        FailedIsDone(s, id);
      }
      StepKeepsClash(s, Work(w), id);
    }
    if s.writer.WReply? && s.writer.result.WriteFailed? {
      StepKeepsClash(s, Work(w), s.writer.id);
    }
    if s'.reply == Some(WriteFailed) {
      StepKeepsClash(s, Work(w), s.worker.id);
    }
  }

  lemma WriterFails(s: State, x: WriterAction)
    requires Link(s) && Stored(s) && Stamps(s) && Keys(s)
    requires WriterEnabled(s, x) && OnlyClashesFail(s) && FaultFree(s, Write(x))
    ensures var s' := DoWriter(s, x);
            && (s'.writer.WReply? && s'.writer.result.WriteFailed? ==>
                  s'.writer.id == s.writer.id && Clashes(s, s.writer.id))
            && (s'.reply == Some(WriteFailed) ==> s.worker.Waiting? && Clashes(s, s.worker.id))
            && !s'.writer.WStopped?
  {
    if Refused(s) {
      RefusedIff(s);
    }
  }

  lemma WriterKeepsFailed(s: State, x: WriterAction)
    requires Inv(s) && WriterEnabled(s, x) && OnlyClashesFail(s) && FaultFree(s, Write(x))
    ensures OnlyClashesFail(DoWriter(s, x))
  {
    var s' := DoWriter(s, x);
    WriterFails(s, x);
    WriterFrame(s, x);
    forall id | Failed(id) in s'.log ensures Clashes(s', id) {
      FailedIsDone(s, id);
      StepKeepsClash(s, Write(x), id);
    }
    if s'.writer.WReply? && s'.writer.result.WriteFailed? {
      WriterWaits(s, x);
      StepKeepsClash(s, Write(x), s.writer.id);
    }
    if s'.reply == Some(WriteFailed) {
      StepKeepsClash(s, Write(x), s.worker.id);
    }
  }

  // The writer comes to a reply only while the worker waits for it.
  lemma WriterWaits(s: State, x: WriterAction)
    requires Link(s) && WriterEnabled(s, x) && DoWriter(s, x).writer.WReply?
    ensures s.worker.Waiting?
  {
  }

  lemma CallerKeepsFailed(s: State, c: CallerAction)
    requires Inv(s) && CallerEnabled(s, c) && OnlyClashesFail(s)
    ensures OnlyClashesFail(DoCaller(s, c))
  {
    CallerLeaves(s, c);
    forall id | Clashes(s, id) ensures Clashes(DoCaller(s, c), id) {
      ClashStays(s, DoCaller(s, c), id);
    }
  }

  lemma {:induction false} RunKeepsFailed(s: State, acts: seq<Action>)
    requires Inv(s) && Run(s, acts).Some? && AllFaultFree(s, acts) && OnlyClashesFail(s)
    ensures OnlyClashesFail(Run(s, acts).value)
    decreases |acts|
  {
    if acts != [] {
      StepKeepsInv(s, acts[0]);
      match acts[0] {
        case Call(c) => CallerKeepsFailed(s, c);
        case Work(w) => WorkerKeepsFailed(s, w);
        case Write(x) => WriterKeepsFailed(s, x);
      }
      RunKeepsFailed(Do(s, acts[0]), acts[1..]);
    }
  }

  // --- outcomes ---

  // A stored transcript has no clash: its ids are in its own rows only.
  lemma StoredHasNoClash(s: State, id: JobId)
    requires Stored(s) && Stamps(s) && Keys(s) && id in s.db.headers
    ensures !Clashes(s, id)
  {
    assert Carries(s, id, s.db.rows[id]) && StampedFrom(s, id);
    var raw, rows := s.produced[id], s.db.rows[id];
    forall k | 0 <= k < |raw| ensures !AdapterClash(s, id, k) {
      assert raw[k].id != 0 ==> rows[k].id == raw[k].id;
      forall j | 0 <= j < k && raw[k].id != 0 ensures raw[j].id != raw[k].id {
        assert rows[j].id != rows[k].id;
        assert raw[j].id != 0 ==> rows[j] == raw[j];
      }
    }
  }

  // With honest adapters and nothing breaking down, at rest every accepted job was either stored
  // and Completed, or Cancelled after its token fired, or Failed because of a clash; and an
  // uncancelled job failed exactly if it has one.
  lemma FaultFreeOutcome(start: State, acts: seq<Action>, id: JobId)
    requires Initial(start) && Run(start, acts).Some? && AllHonest(start, acts) && AllFaultFree(start, acts)
    requires Quiescent(Run(start, acts).value) && id in Run(start, acts).value.intake.accepted
    ensures var s := Run(start, acts).value;
            && (Completed(id) in s.log <==> id in s.db.headers)
            && (Completed(id) in s.log ==> !Clashes(s, id))
            && (Failed(id) in s.log ==> id !in s.db.headers && Clashes(s, id))
            && (Cancelled(id) in s.log ==> id !in s.db.headers && id in s.tokens.fired)
            && (id !in s.db.headers ==> (Cancelled(id) in s.log <==> Failed(id) !in s.log))
            && (id !in s.tokens.fired ==> (Failed(id) in s.log <==> Clashes(s, id)))
  {
    var s := Run(start, acts).value;
    InitInv(start);
    RunKeepsCancelled(start, acts);
    RunKeepsFailed(start, acts);
    Settles(s, id);
    RunKeepsInv(start, acts);
    if id in s.db.headers {
      StoredHasNoClash(s, id);
    }
  }

  // At rest the one terminal event of an accepted job is Completed if it is stored, else Cancelled
  // or Failed.
  lemma Settles(s: State, id: JobId)
    requires Reachable(s) && Quiescent(s) && id in s.intake.accepted
    ensures Completed(id) in s.log <==> id in s.db.headers
    ensures id in s.db.headers ==> Cancelled(id) !in s.log && Failed(id) !in s.log
    ensures id !in s.db.headers ==> (Cancelled(id) in s.log <==> Failed(id) !in s.log)
  {
    ExactlyOneTerminal(s);
    FinishedHasTerminal(s, id);
    InLog(s.log, Completed(id));
    InLog(s.log, Cancelled(id));
    InLog(s.log, Failed(id));
  }

  // So without a clash no job fails.
  lemma ClashFreeOutcome(start: State, acts: seq<Action>, id: JobId)
    requires Initial(start) && Run(start, acts).Some? && AllHonest(start, acts) && AllFaultFree(start, acts)
    requires Quiescent(Run(start, acts).value) && id in Run(start, acts).value.intake.accepted
    requires !Clashes(Run(start, acts).value, id)
    ensures var s := Run(start, acts).value;
            && Failed(id) !in s.log
            && (Completed(id) in s.log <==> id in s.db.headers)
            && (Cancelled(id) in s.log <==> id !in s.db.headers)
            && (id !in s.tokens.fired ==> Completed(id) in s.log)
  {
    FaultFreeOutcome(start, acts, id);
  }

  // --- what decides a verdict ---

  // What ends a job short of its commit: a fired token seen at a check is a cancellation, the
  // adapter's word decides about its own errors, and everything else is a failure.
  function Obstacle(s: State, a: Action): Option<Event>
    requires Enabled(s, a)
  {
    match a
    case Work(ResolveBackend(false)) => Some(Failed(s.worker.id))
    case Work(AdapterErr(true)) => Some(Cancelled(s.worker.id))
    case Work(AdapterErr(false)) => Some(Failed(s.worker.id))
    case Work(PreWriteCheck) => if s.worker.id in s.tokens.fired then Some(Cancelled(s.worker.id)) else None
    case Work(Submit) => if s.writer.WStopped? then Some(Failed(s.worker.id)) else None
    case Work(ReplyLost) => Some(Failed(s.worker.id))
    case Write(Begin(false)) => Some(Failed(s.inbox[0].id))
    case Write(CheckAfterBegin) => if s.writer.id in s.tokens.fired then Some(Cancelled(s.writer.id)) else None
    case Write(InsertHeader(false)) => Some(Failed(s.writer.id))
    case Write(CheckBeforeSegment) => if s.writer.id in s.tokens.fired then Some(Cancelled(s.writer.id)) else None
    case Write(InsertSegment(false)) => Some(Failed(s.writer.id))
    case Write(Commit(false)) => Some(Failed(s.writer.id))
    case _ => None
  }

  // The verdict is out, or on its way to the worker.
  ghost predicate Decided(s: State, e: Event)
    requires e.Cancelled? || e.Failed?
  {
    var reply := if e.Cancelled? then WriteCancelled else WriteFailed;
    || e in s.log
    || s.writer == WReply(e.id, reply)
    || (s.worker == Waiting(e.id) && s.reply == Some(reply))
  }

  lemma ObstacleDecides(s: State, a: Action)
    requires Link(s) && Enabled(s, a) && Obstacle(s, a).Some?
    ensures Obstacle(s, a).value.Cancelled? || Obstacle(s, a).value.Failed?
    ensures Decided(Do(s, a), Obstacle(s, a).value)
  {
    match a
    case Work(w) => WorkerAppends(s, w);
    case Write(x) =>
  }

  lemma DecidedStays(s: State, a: Action, e: Event)
    requires Link(s) && Enabled(s, a) && (e.Cancelled? || e.Failed?) && Decided(s, e)
    ensures Decided(Do(s, a), e)
  {
    match a
    case Call(c) => CallerLeaves(s, c);
    case Work(w) => WorkerAppends(s, w);
    case Write(x) => WriterFrame(s, x);
  }

  lemma {:induction false} RunKeepsDecided(s: State, acts: seq<Action>, e: Event)
    requires Inv(s) && Run(s, acts).Some? && (e.Cancelled? || e.Failed?) && Decided(s, e)
    ensures Decided(Run(s, acts).value, e)
    decreases |acts|
  {
    if acts != [] {
      StepKeepsInv(s, acts[0]);
      DecidedStays(s, acts[0], e);
      RunKeepsDecided(Do(s, acts[0]), acts[1..], e);
    }
  }

  // An obstacle settles its job for good: whatever happens afterwards, once all is at rest the
  // job's only terminal event is the one the obstacle stands for, and nothing of it is stored.
  lemma ObstacleIsFinal(s: State, a: Action, more: seq<Action>)
    requires Reachable(s) && Enabled(s, a) && Obstacle(s, a).Some?
    requires Run(Do(s, a), more).Some? && Quiescent(Run(Do(s, a), more).value)
    ensures var s', e := Run(Do(s, a), more).value, Obstacle(s, a).value;
            e in s'.log && Terminals(s'.log, e.id) == 1 && e.id !in s'.db.headers && Completed(e.id) !in s'.log
  {
    var s', e := Run(Do(s, a), more).value, Obstacle(s, a).value;
    ReachableInv(s);
    ObstacleDecides(s, a);
    StepKeepsInv(s, a);
    RunKeepsDecided(Do(s, a), more, e);
    var s1 := Then(s, a);
    ReachableOn(s1, more);
    VerdictAlone(s', e);
  }

  lemma VerdictAlone(s: State, e: Event)
    requires Reachable(s) && Quiescent(s) && (e.Cancelled? || e.Failed?) && e in s.log
    ensures Terminals(s.log, e.id) == 1 && e.id !in s.db.headers && Completed(e.id) !in s.log
  {
    EventsAtAnyTime(s);
    ExactlyOneTerminal(s);
    InLog(s.log, e);
    InLog(s.log, Completed(e.id));
  }

  // --- one clash ---

  const DOUBLED: seq<Segment> := [Segment(5, "a"), Segment(5, "b")]

  lemma DoubledIds()
    ensures IdsOf(DOUBLED) == {5} && Stamped(DOUBLED, [6, 7]) == DOUBLED && Fresh({5}, [6, 7])
  {
    assert DOUBLED[0].id in IdsOf(DOUBLED);
  }

  // Nothing but the worker has been at work.
  ghost predicate OneStarted(s: State) {
    && Reachable(s) && s.writer.WIdle? && s.inbox == [] && s.reply.None? && s.tokens.fired == {}
    && s.log == [Started(1, 1)] && s.db == Tables({}, map[], {})
  }

  lemma FirstResolving() returns (s: State)
    ensures OneStarted(s) && s.worker == Resolving(1) && s.seen == {}
  {
    InitReachable();
    s := Enqueue(INIT, 1);
    s := Start(s);
  }

  // The adapter answers with one id twice.
  lemma DoubledAnswer() returns (s: State)
    ensures OneStarted(s) && s.worker == Transcribed(1, DOUBLED) && s.seen == {5}
    ensures 1 in s.produced && s.produced[1] == DOUBLED
  {
    DoubledIds();
    s := FirstResolving();
    s := Then(s, Work(ResolveBackend(true)));
    s := Then(s, Work(AdapterOk(DOUBLED)));
  }

  lemma DoubledInHand() returns (s: State)
    ensures OneStarted(s) && s.worker == Submitting(1, DOUBLED) && 1 in s.produced && s.produced[1] == DOUBLED
  {
    DoubledIds();
    s := DoubledAnswer();
    s := Then(s, Work(Stamp([6, 7])));
    s := Then(s, Work(PreWriteCheck));
  }

  lemma DoubledSent() returns (s: State)
    ensures Reachable(s) && s.worker == Waiting(1) && 1 in s.produced && s.produced[1] == DOUBLED
    ensures s.writer == WBegun(1, DOUBLED) && s.db == Tables({}, map[], {})
    ensures s.inbox == [] && s.reply.None? && s.tokens.fired == {} && s.log == [Started(1, 1)]
  {
    s := DoubledInHand();
    s := Then(s, Work(Submit));
    s := Then(s, Write(Begin(true)));
  }

  lemma DoubledBegun() returns (s: State)
    ensures Reachable(s) && s.worker == Waiting(1) && 1 in s.produced && s.produced[1] == DOUBLED
    ensures s.writer == WCheck(1, DOUBLED, 0, Tables({1}, map[1 := []], {}))
    ensures s.inbox == [] && s.reply.None? && s.tokens.fired == {} && s.log == [Started(1, 1)]
  {
    s := DoubledSent();
    s := Then(s, Write(CheckAfterBegin));
    s := Then(s, Write(InsertHeader(true)));
  }

  lemma DoubledRefused() returns (s: State)
    ensures Reachable(s) && Refused(s) && s.writer.id == 1 && s.writer.k == 1
    ensures 1 in s.produced && s.produced[1] == DOUBLED
    ensures s.worker == Waiting(1) && s.reply.None? && s.log == [Started(1, 1)]
  {
    s := DoubledBegun();
    s := Then(s, Write(CheckBeforeSegment));
    s := Then(s, Write(InsertSegment(true)));
    s := Then(s, Write(CheckBeforeSegment));
    assert s.writer.tx.rows[1][0].id == 5;
  }

  // The second segment is refused though nothing broke down, and the job then fails.
  lemma AdapterCanClash() returns (refused: State, failed: State)
    ensures Reachable(refused) && Refused(refused) && refused.writer.id == 1 && refused.writer.k == 1
    ensures 1 in refused.produced && refused.produced[1] == DOUBLED && AdapterClash(refused, 1, 1)
    ensures Reachable(failed) && failed.log == [Started(1, 1), Failed(1)]
  {
    refused := DoubledRefused();
    assert refused.produced[1][0].id == refused.produced[1][1].id;
    failed := Then(refused, Write(InsertSegment(false)));
    failed := Then(failed, Write(SendReply));
    failed := Then(failed, Work(TakeReply));
  }
}
