/**
 What every interleaving of callers, worker and writer keeps.  The invariant is split by
 concern; each part has one preservation lemma per process.
 */
module TranscriptionInvariants {
  import opened Prelude
  import opened Transcription

  // ---------------------------------------------------------------------------
  // The parts of the invariant
  // ---------------------------------------------------------------------------

  // A job taken off the queue whose Started event is still to come.
  function Unstarted(w: Worker): seq<JobId> {
    if w.Dequeued? || w.Sized? then [w.id] else []
  }

  // The worker is between a job's Started event and its return from process_one.
  predicate Active(w: Worker, id: JobId) {
    !w.Idle? && w.id == id && (w.Resolving? || w.Transcribing? || w.Transcribed? || w.Produced? ||
                               w.Submitting? || w.Waiting?)
  }

  predicate Finished(s: State, id: JobId) {
    id in StartedIds(s.log) && !Active(s.worker, id)
  }

  // FIFO conservation: started ids, then the job in hand, then the queue, are exactly the
  // accepted ids in enqueue order.
  ghost predicate Fifo(s: State) {
    && StartedIds(s.log) + Unstarted(s.worker) + s.queue == s.intake.accepted
    && Distinct(s.intake.accepted)
    && StartedFirst(s.log)
    && (HoldsStarted(s.worker) ==> s.worker.id in StartedIds(s.log))
  }

  // Ids are minted once and sit in exactly one stage.
  ghost predicate Stages(i: Intake) {
    && i.tokenInserted <= i.used && i.lenRead.Keys <= i.used && i.rejected.Keys <= i.used
    && (forall id :: id in i.accepted ==> id in i.used && id in i.returned)
    && i.tokenInserted !! i.lenRead.Keys && i.tokenInserted !! i.rejected.Keys && i.lenRead.Keys !! i.rejected.Keys
    && i.returned.Keys <= i.used
    && (forall id :: id in i.returned ==>
          && id !in i.tokenInserted && id !in i.lenRead && id !in i.rejected
          && (i.returned[id].Enqueued? <==> id in i.accepted))
  }

  // What callers were told stays within the queue bound.
  ghost predicate IntakeBounds(i: Intake) {
    && (forall id :: id in i.lenRead ==> i.lenRead[id] <= QUEUE_DEPTH)
    && (forall id :: id in i.rejected ==> i.rejected[id] <= QUEUE_DEPTH)
    && (forall id :: id in i.returned ==>
          match i.returned[id]
          case Enqueued(position) => 1 <= position <= QUEUE_DEPTH + 1
          case QueueFull(queued) => queued <= QUEUE_DEPTH)
  }

  ghost predicate Bounds(s: State) {
    && |s.queue| <= QUEUE_DEPTH
    && IntakeBounds(s.intake)
    && (s.worker.Sized? ==> 1 <= s.worker.queueSize <= QUEUE_DEPTH + 1)
    && (forall j :: 0 <= j < |s.log| && s.log[j].Started? ==> 1 <= s.log[j].queueSize <= QUEUE_DEPTH + 1)
  }

  predicate InHand(w: Worker, id: JobId) {
    !w.Idle? && w.id == id
  }

  // A Start call for this job is still in flight.
  predicate Starting(i: Intake, id: JobId) {
    id in i.tokenInserted || id in i.lenRead || id in i.rejected
  }

  // The job is being started, queued or run.
  predicate Held(s: State, id: JobId) {
    Starting(s.intake, id) || id in s.queue || InHand(s.worker, id)
  }

  // The map holds the tokens of exactly the held jobs that no Cancel has taken.
  ghost predicate Tokens(s: State) {
    && (forall id :: id in s.tokens.cancels <==> Held(s, id) && id !in s.tokens.firing && id !in s.tokens.fired)
    && s.tokens.cancels <= s.intake.used && s.tokens.firing <= s.intake.used && s.tokens.fired <= s.intake.used
    && s.tokens.firing !! s.tokens.fired
  }

  predicate WriterBusy(w: Writer) {
    !w.WIdle? && !w.WStopped? && !w.WEmit?
  }

  // The worker has emitted Started for its job and not sent it to the writer.
  predicate BeforeSubmit(w: Worker) {
    w.Resolving? || w.Transcribing? || w.Transcribed? || w.Produced? || w.Submitting?
  }

  // How worker, writer and the channels between them fit together.
  ghost predicate Link(s: State) {
    && (forall id :: id in s.db.headers ==> id in StartedIds(s.log))
    && (BeforeSubmit(s.worker) ==> s.worker.id !in s.db.headers)
    && (s.writer.WEmit? ==> s.writer.id in s.db.headers)
    && (WriterBusy(s.writer) ==> s.worker.Waiting? && s.writer.id == s.worker.id)
    && (!s.worker.Waiting? ==> s.inbox == [] && s.reply.None?)
    && (s.worker.Waiting? ==> Handover(s))
  }

  // A waiting worker's command is in exactly one place.
  ghost predicate Handover(s: State)
    requires s.worker.Waiting?
  {
    var id := s.worker.id;
    && (s.inbox != [] ==>
          |s.inbox| == 1 && s.inbox[0].id == id && s.reply.None? && id !in s.db.headers
          && (s.writer.WIdle? || s.writer.WEmit?))
    && (WriterBusy(s.writer) ==> s.inbox == [] && s.reply.None? &&
                                 (id in s.db.headers <==> s.writer.WReply? && s.writer.result.Inserted?))
    && (s.reply.Some? ==> s.inbox == [] && (s.reply.value.Inserted? <==> id in s.db.headers))
    && (s.writer.WEmit? && s.writer.id == id ==> s.reply.Some?)
    && (s.inbox == [] && !WriterBusy(s.writer) && s.reply.None? ==> s.writer.WStopped? && id !in s.db.headers)
  }

  // The writer still owes this job its Completed event.
  predicate Owed(w: Writer, id: JobId) {
    (w.WEmit? && w.id == id) || (w.WReply? && w.id == id && w.result.Inserted?)
  }

  // Exactly one terminal event for a finished job, from the writer when its transcript is
  // stored, from the worker when it is not.
  ghost predicate Emissions(s: State) {
    forall id :: EmissionsOf(s, id)
  }

  ghost predicate EmissionsOf(s: State, id: JobId) {
    && Completions(s.log, id) == (if id in s.db.headers && !Owed(s.writer, id) then 1 else 0)
    && WorkerTerminals(s.log, id) == (if Finished(s, id) && id !in s.db.headers then 1 else 0)
  }

  lemma SameEmissions(s: State, s': State)
    requires Emissions(s)
    requires s'.log == s.log && s'.worker == s.worker && s'.writer == s.writer && s'.db == s.db
    ensures Emissions(s')
  {
    forall id ensures EmissionsOf(s', id) {
      assert EmissionsOf(s, id);
    }
  }

  // The stamped segments of the command on its way to, or inside, the writer.
  ghost predicate Carries(s: State, id: JobId, segments: seq<Segment>) {
    id in s.stamped && s.stamped[id] == segments
  }

  // Stored transcripts are whole, and an open transaction adds one partial transcript only.
  ghost predicate Stored(s: State) {
    && s.db.rows.Keys == s.db.headers
    && (forall id :: id in s.db.headers ==> Carries(s, id, s.db.rows[id]))
    && (s.worker.Produced? || s.worker.Submitting? ==> Carries(s, s.worker.id, s.worker.segments))
    && (forall c :: c in s.inbox ==> Carries(s, c.id, c.segments))
    && (s.writer.WBegun? || s.writer.WHeader? || s.writer.WCheck? || s.writer.WInsert? ==>
          Carries(s, s.writer.id, s.writer.segments))
    && (s.writer.WInsert? ==> s.writer.k < |s.writer.segments|)
    && (s.writer.WCheck? || s.writer.WInsert? ==>
          && s.writer.k <= |s.writer.segments| && s.writer.tx.earlier == s.db.earlier
          && s.writer.tx.headers == s.db.headers + {s.writer.id}
          && s.writer.tx.rows == s.db.rows[s.writer.id := s.writer.segments[..s.writer.k]])
  }

  // Every stamped transcript is a stamping of what the adapter returned, made once.
  ghost predicate Stamps(s: State) {
    && (forall id :: id in s.stamped ==> id in StartedIds(s.log) && StampedFrom(s, id))
    && (s.worker.Resolving? || s.worker.Transcribing? || s.worker.Transcribed? ==> s.worker.id !in s.stamped)
    && (s.worker.Transcribed? ==>
          && s.worker.id in s.produced && s.produced[s.worker.id] == s.worker.segments
          && IdsOf(s.worker.segments) <= s.seen)
  }

  ghost predicate StampedFrom(s: State, id: JobId)
    requires id in s.stamped
  {
    id in s.produced && StampOf(s.produced[id], s.stamped[id]) && IdsOf(s.stamped[id]) <= s.seen
  }

  // No two rows of the segment table share an id.
  ghost predicate Unique(t: Tables) {
    && (forall id, i :: id in t.rows && 0 <= i < |t.rows[id]| ==> t.rows[id][i].id !in t.earlier)
    && forall a, b, i, j ::
      a in t.rows && b in t.rows && 0 <= i < |t.rows[a]| && 0 <= j < |t.rows[b]| && (a != b || i != j) ==>
        t.rows[a][i].id != t.rows[b][j].id
  }

  // No stored row has an id that was minted for this job.
  ghost predicate NewKeys(s: State, id: JobId) {
    && id in s.produced && id in s.stamped && |s.stamped[id]| == |s.produced[id]|
    && forall i :: 0 <= i < |s.produced[id]| && s.produced[id][i].id == 0 ==> KeyFree(s.db, s.stamped[id][i].id)
  }

  // The stamped transcript in hand is not stored yet.
  predicate OnItsWay(s: State) {
    (s.worker.Produced? || s.worker.Submitting? || s.worker.Waiting?) && s.worker.id !in s.db.headers
  }

  ghost predicate Keys(s: State) {
    && Unique(s.db) && 0 !in s.db.earlier && s.db.earlier <= s.seen
    && (s.writer.WCheck? || s.writer.WInsert? ==> Unique(s.writer.tx))
    && (OnItsWay(s) ==> NewKeys(s, s.worker.id))
  }

  ghost predicate Inv(s: State) {
    && Fifo(s) && Stages(s.intake) && Bounds(s) && Tokens(s) && Link(s) && Emissions(s) && Stored(s)
    && Stamps(s) && Keys(s)
  }

  // ---------------------------------------------------------------------------
  // The event log
  // ---------------------------------------------------------------------------

  lemma StartedIdsGrow(log: seq<Event>, e: Event)
    ensures StartedIds(log + [e]) == StartedIds(log) + (if e.Started? then [e.id] else [])
  {
    assert (log + [e])[..|log|] == log;
  }

  lemma StartedFirstGrows(log: seq<Event>, e: Event)
    requires StartedFirst(log) && (e.Started? || e.id in StartedIds(log))
    ensures StartedFirst(log + [e])
  {
    var log' := log + [e];
    forall j | 0 <= j < |log'| && !log'[j].Started? ensures log'[j].id in StartedIds(log'[..j]) {
      assert log'[..j] == log[..j];
      if j == |log| {
        assert log[..j] == log;
      }
    }
  }

  lemma CountsGrow(log: seq<Event>, e: Event, id: JobId)
    ensures Completions(log + [e], id) == Completions(log, id) + (if e == Completed(id) then 1 else 0)
    ensures WorkerTerminals(log + [e], id) ==
            WorkerTerminals(log, id) + (if e == Cancelled(id) || e == Failed(id) then 1 else 0)
  {
    assert multiset(log + [e]) == multiset(log) + multiset{e};
  }

  // ---------------------------------------------------------------------------
  // Preservation
  // ---------------------------------------------------------------------------

  // --- callers ---

  lemma CallerKeepsFifo(s: State, c: CallerAction)
    requires Fifo(s) && Stages(s.intake) && CallerEnabled(s, c)
    ensures Fifo(DoCaller(s, c))
  {
    if c.TrySend? && |s.queue| < QUEUE_DEPTH {
      var done := StartedIds(s.log) + Unstarted(s.worker);
      assert done + (s.queue + [c.id]) == (done + s.queue) + [c.id];
    }
  }

  lemma CallerKeepsStages(s: State, c: CallerAction)
    requires Stages(s.intake) && CallerEnabled(s, c)
    ensures Stages(DoCaller(s, c).intake)
  {
    match c
    case InsertToken(id) =>
    case ReadLen(id) =>
    case TrySend(id) =>
      AcceptKeepsStages(s.intake, id);
      RejectKeepsStages(s.intake, id);
    case RemoveOnFull(id) => ForgetKeepsStages(s.intake, id);
    case TakeToken(_) =>
    case FireToken(_) =>
  }

  lemma AcceptKeepsStages(i: Intake, id: JobId)
    requires Stages(i) && id in i.lenRead
    ensures Stages(Accept(i, id))
  {
    assert (i.lenRead - {id}).Keys == i.lenRead.Keys - {id};
  }

  lemma RejectKeepsStages(i: Intake, id: JobId)
    requires Stages(i) && id in i.lenRead
    ensures Stages(i.(lenRead := i.lenRead - {id}, rejected := i.rejected[id := i.lenRead[id]]))
  {
    assert (i.lenRead - {id}).Keys == i.lenRead.Keys - {id};
    assert i.rejected[id := i.lenRead[id]].Keys == i.rejected.Keys + {id};
  }

  lemma ForgetKeepsStages(i: Intake, id: JobId)
    requires Stages(i) && id in i.rejected
    ensures Stages(i.(rejected := i.rejected - {id}, returned := i.returned[id := QueueFull(i.rejected[id])]))
  {
    assert (i.rejected - {id}).Keys == i.rejected.Keys - {id};
  }

  lemma CallerKeepsBounds(s: State, c: CallerAction)
    requires Bounds(s) && CallerEnabled(s, c)
    ensures Bounds(DoCaller(s, c))
  {
  }

  // An accepted id is in one place, and no longer in a Start call.
  lemma AcceptedSplit(s: State, id: JobId)
    requires Fifo(s)
    ensures id in s.queue || InHand(s.worker, id) ==> id in s.intake.accepted
    ensures id in StartedIds(s.log) ==> id in s.intake.accepted && id !in s.queue
  {
    var started, rest := StartedIds(s.log), Unstarted(s.worker) + s.queue;
    assert s.intake.accepted == started + rest;
    if id in started {
      var i :| 0 <= i < |started| && started[i] == id;
      forall j | 0 <= j < |rest| ensures rest[j] != id {
        assert s.intake.accepted[i] != s.intake.accepted[|started| + j];
      }
    }
    assert forall x :: x in s.queue ==> x in rest;
  }

  lemma StartingNotAccepted(s: State, id: JobId)
    requires Fifo(s) && Stages(s.intake) && Starting(s.intake, id)
    ensures id !in s.queue && !InHand(s.worker, id)
  {
    AcceptedSplit(s, id);
  }

  lemma CallerKeepsTokens(s: State, c: CallerAction)
    requires Fifo(s) && Stages(s.intake) && Tokens(s) && CallerEnabled(s, c)
    ensures Tokens(DoCaller(s, c))
  {
    var s' := DoCaller(s, c);
    if Starting(s.intake, c.id) {
      StartingNotAccepted(s, c.id);
    }
    assert s'.worker == s.worker;
    forall id
      ensures id in s'.tokens.cancels <==> Held(s', id) && id !in s'.tokens.firing && id !in s'.tokens.fired
    {
      CallerHolds(s, c, id);
      assert id in s.tokens.cancels <==> Held(s, id) && id !in s.tokens.firing && id !in s.tokens.fired;
    }
  }

  // A Start call holds its job from the insertion of the token until it is rejected.
  lemma CallerHolds(s: State, c: CallerAction, id: JobId)
    requires Stages(s.intake) && CallerEnabled(s, c)
    requires Starting(s.intake, c.id) ==> c.id !in s.queue && !InHand(s.worker, c.id)
    ensures Held(DoCaller(s, c), id) <==>
            (Held(s, id) || (c.InsertToken? && id == c.id)) && !(c.RemoveOnFull? && id == c.id)
  {
  }

  lemma CallerLeaves(s: State, c: CallerAction)
    requires CallerEnabled(s, c)
    ensures var s' := DoCaller(s, c);
            && s'.log == s.log && s'.worker == s.worker && s'.writer == s.writer && s'.db == s.db
            && s'.inbox == s.inbox && s'.reply == s.reply
            && s'.produced == s.produced && s'.stamped == s.stamped && s'.seen == s.seen
  {
  }

  lemma CallerKeepsRest(s: State, c: CallerAction)
    requires Link(s) && Emissions(s) && Stored(s) && CallerEnabled(s, c)
    ensures Link(DoCaller(s, c)) && Emissions(DoCaller(s, c)) && Stored(DoCaller(s, c))
  {
    CallerLeaves(s, c);
    assert Emissions(DoCaller(s, c)) by { SameEmissions(s, DoCaller(s, c)); }
  }

  lemma CallerKeepsStamps(s: State, c: CallerAction)
    requires Stamps(s) && Keys(s) && CallerEnabled(s, c)
    ensures Stamps(DoCaller(s, c)) && Keys(DoCaller(s, c))
  {
    CallerLeaves(s, c);
    var s' := DoCaller(s, c);
    assert forall id :: id in s.stamped && StampedFrom(s, id) ==> StampedFrom(s', id);
    assert OnItsWay(s') ==> NewKeys(s, s.worker.id);
  }

  // --- worker ---

  // The one event a worker action emits, if any.
  function WorkerEmits(s: State, w: WorkerAction): Option<Event>
    requires WorkerEnabled(s, w)
  {
    match w
    case EmitStarted => Some(Started(s.worker.id, s.worker.queueSize))
    case ResolveBackend(ok) => if ok then None else Some(Failed(s.worker.id))
    case EmitProgress(id) => Some(Progress(id))
    case AdapterErr(cancelled) => Some(Terminal(s.worker.id, cancelled))
    case PreWriteCheck => if s.worker.id in s.tokens.fired then Some(Cancelled(s.worker.id)) else None
    case Submit => if s.writer.WStopped? then Some(Failed(s.worker.id)) else None
    case TakeReply =>
      if s.reply.value.Inserted? then None else Some(Terminal(s.worker.id, s.reply.value.WriteCancelled?))
    case ReplyLost => Some(Failed(s.worker.id))
    case _ => None
  }

  lemma WorkerAppends(s: State, w: WorkerAction)
    requires WorkerEnabled(s, w)
    ensures DoWorker(s, w).log == (if WorkerEmits(s, w).Some? then s.log + [WorkerEmits(s, w).value] else s.log)
    ensures WorkerEmits(s, w).Some? && WorkerEmits(s, w).value.Started? <==> w.EmitStarted?
    ensures w.EmitStarted? ==> WorkerEmits(s, w).value.id == s.worker.id
  {
  }

  lemma WorkerLeavesWriter(s: State, w: WorkerAction)
    requires WorkerEnabled(s, w)
    ensures DoWorker(s, w).db == s.db && DoWorker(s, w).writer == s.writer
  {
  }

  lemma StartedIdsAfter(log: seq<Event>, e: Option<Event>, log': seq<Event>)
    requires log' == if e.Some? then log + [e.value] else log
    ensures StartedIds(log') == StartedIds(log) + (if e.Some? && e.value.Started? then [e.value.id] else [])
  {
    if e.Some? {
      StartedIdsGrow(log, e.value);
    }
  }

  lemma WorkerLog(s: State, w: WorkerAction)
    requires WorkerEnabled(s, w)
    ensures DoWorker(s, w).log == (if WorkerEmits(s, w).Some? then s.log + [WorkerEmits(s, w).value] else s.log)
    ensures DoWorker(s, w).db == s.db && DoWorker(s, w).writer == s.writer
    ensures StartedIds(DoWorker(s, w).log) ==
            StartedIds(s.log) + (if w.EmitStarted? then [s.worker.id] else [])
  {
    WorkerAppends(s, w);
    WorkerLeavesWriter(s, w);
    StartedIdsAfter(s.log, WorkerEmits(s, w), DoWorker(s, w).log);
  }

  lemma WorkerFrame(s: State, w: WorkerAction)
    requires WorkerEnabled(s, w)
    ensures DoWorker(s, w).intake == s.intake
    ensures DoWorker(s, w).queue == (if w.Receive? then s.queue[1..] else s.queue)
  {
  }

  lemma WorkerKeepsFifo(s: State, w: WorkerAction)
    requires Fifo(s) && WorkerEnabled(s, w)
    ensures Fifo(DoWorker(s, w))
  {
    WorkerFrame(s, w);
    WorkerLog(s, w);
    WorkerStartedFirst(s, w);
    WorkerConserves(s, w);
    WorkerHolds(s, w);
    FifoFrom(s, DoWorker(s, w));
  }

  lemma FifoFrom(s: State, s': State)
    requires Fifo(s) && s'.intake == s.intake && StartedFirst(s'.log)
    requires StartedIds(s'.log) + Unstarted(s'.worker) + s'.queue == StartedIds(s.log) + Unstarted(s.worker) + s.queue
    requires HoldsStarted(s'.worker) ==> s'.worker.id in StartedIds(s'.log)
    ensures Fifo(s')
  {
  }

  lemma WorkerStartedFirst(s: State, w: WorkerAction)
    requires Fifo(s) && WorkerEnabled(s, w)
    ensures StartedFirst(DoWorker(s, w).log)
  {
    WorkerAppends(s, w);
    if WorkerEmits(s, w).Some? {
      EmitsOfStarted(s, w);
      StartedFirstGrows(s.log, WorkerEmits(s, w).value);
    }
  }

  // The worker speaks of jobs it has started only.
  lemma EmitsOfStarted(s: State, w: WorkerAction)
    requires WorkerEnabled(s, w) && WorkerEmits(s, w).Some?
    requires HoldsStarted(s.worker) ==> s.worker.id in StartedIds(s.log)
    ensures WorkerEmits(s, w).value.Started? || WorkerEmits(s, w).value.id in StartedIds(s.log)
  {
  }

  predicate HoldsStarted(w: Worker) {
    !w.Idle? && !w.Dequeued? && !w.Sized?
  }

  // The worker keeps the job it holds until it lets go of it, and holds it as started only
  // once it has emitted Started.
  lemma WorkerHolds(s: State, w: WorkerAction)
    requires WorkerEnabled(s, w)
    ensures var w' := DoWorker(s, w).worker;
            HoldsStarted(w') ==> (HoldsStarted(s.worker) || w.EmitStarted?) && w'.id == s.worker.id
  {
  }

  lemma UnstartedFrame(s: State, w: WorkerAction)
    requires WorkerEnabled(s, w)
    ensures !w.Receive? && !w.EmitStarted? ==> Unstarted(DoWorker(s, w).worker) == Unstarted(s.worker)
    ensures w.EmitStarted? ==> Unstarted(DoWorker(s, w).worker) == [] && Unstarted(s.worker) == [s.worker.id]
    ensures w.Receive? ==> Unstarted(DoWorker(s, w).worker) == [s.queue[0]] && Unstarted(s.worker) == []
  {
  }

  lemma WorkerConserves(s: State, w: WorkerAction)
    requires WorkerEnabled(s, w)
    ensures StartedIds(DoWorker(s, w).log) + Unstarted(DoWorker(s, w).worker) + DoWorker(s, w).queue
         == StartedIds(s.log) + Unstarted(s.worker) + s.queue
  {
    WorkerLog(s, w);
    WorkerFrame(s, w);
    UnstartedFrame(s, w);
    if w.Receive? {
      Regroup(StartedIds(s.log), s.queue[0], s.queue[1..]);
    } else if w.EmitStarted? {
      Regroup(StartedIds(s.log), s.worker.id, s.queue);
    }
  }

  // An id may be read as the end of the first part, the middle, or the start of the last.
  lemma Regroup(done: seq<JobId>, id: JobId, rest: seq<JobId>)
    ensures (done + [id]) + [] + rest == done + [id] + rest
    ensures done + [id] + rest == done + [] + ([id] + rest)
  {
  }

  lemma BoundsFrame(s: State, s': State, e: Option<Event>)
    requires Bounds(s)
    requires s'.intake == s.intake
    requires |s'.queue| <= |s.queue|
    requires s'.worker.Sized? ==> 1 <= s'.worker.queueSize <= QUEUE_DEPTH + 1
    requires s'.log == (if e.Some? then s.log + [e.value] else s.log)
    requires e.Some? && e.value.Started? ==> 1 <= e.value.queueSize <= QUEUE_DEPTH + 1
    ensures Bounds(s')
  {
  }

  lemma WorkerSizes(s: State, w: WorkerAction)
    requires WorkerEnabled(s, w)
    ensures var w' := DoWorker(s, w).worker; w'.Sized? ==> w' == s.worker || w'.queueSize == |s.queue| + 1
    ensures var e := WorkerEmits(s, w);
            e.Some? && e.value.Started? ==> s.worker.Sized? && e.value.queueSize == s.worker.queueSize
  {
  }

  lemma WorkerKeepsBounds(s: State, w: WorkerAction)
    requires Bounds(s) && WorkerEnabled(s, w)
    ensures Bounds(DoWorker(s, w))
  {
    WorkerFrame(s, w);
    WorkerLog(s, w);
    WorkerSizes(s, w);
    BoundsFrame(s, DoWorker(s, w), WorkerEmits(s, w));
  }

  lemma WorkerKeepsTokens(s: State, w: WorkerAction)
    requires Fifo(s) && Stages(s.intake) && Tokens(s) && WorkerEnabled(s, w)
    ensures Tokens(DoWorker(s, w))
  {
    var s' := DoWorker(s, w);
    WorkerFrame(s, w);
    if w.RemoveToken? {
      AcceptedSplit(s, s.worker.id);
    }
    forall id
      ensures id in s'.tokens.cancels <==> Held(s', id) && id !in s'.tokens.firing && id !in s'.tokens.fired
    {
      WorkerKeepsHeld(s, w, id);
      assert id in s.tokens.cancels <==> Held(s, id) && id !in s.tokens.firing && id !in s.tokens.fired;
    }
  }

  // The worker lets go of a job only together with its token.
  lemma WorkerKeepsHeld(s: State, w: WorkerAction, id: JobId)
    requires Stages(s.intake) && WorkerEnabled(s, w)
    requires w.RemoveToken? ==> s.worker.id !in s.queue && s.worker.id in s.intake.accepted
    ensures Held(DoWorker(s, w), id) <==> Held(s, id) && !(w.RemoveToken? && id == s.worker.id)
    ensures DoWorker(s, w).tokens ==
            s.tokens.(cancels := if w.RemoveToken? then s.tokens.cancels - {s.worker.id} else s.tokens.cancels)
  {
    WorkerFrame(s, w);
    WorkerKeepsId(s, w);
    if w.Receive? {
      assert s.queue == [s.queue[0]] + s.queue[1..];
    }
  }

  lemma WorkerKeepsId(s: State, w: WorkerAction)
    requires WorkerEnabled(s, w)
    ensures var w' := DoWorker(s, w).worker;
            if w.Receive? then s.worker.Idle? && w' == Dequeued(s.queue[0])
            else if w.RemoveToken? then !s.worker.Idle? && w'.Idle?
            else w' == s.worker || (!s.worker.Idle? && !w'.Idle? && w'.id == s.worker.id)
  {
  }

  // The job in hand has not been started before.
  lemma NotStartedTwice(s: State)
    requires Fifo(s) && (s.worker.Sized? || s.worker.Dequeued?)
    ensures s.worker.id !in StartedIds(s.log)
  {
    var n := |StartedIds(s.log)|;
    assert s.intake.accepted[n] == s.worker.id;
    assert forall i :: 0 <= i < n ==> s.intake.accepted[i] == StartedIds(s.log)[i];
  }

  lemma WorkerKeepsLink(s: State, w: WorkerAction)
    requires Fifo(s) && Link(s) && WorkerEnabled(s, w)
    ensures Link(DoWorker(s, w))
  {
    WorkerLog(s, w);
    WorkerKeepsChannels(s, w);
    WorkerBeforeSubmit(s, w);
    if w.EmitStarted? {
      NotStartedTwice(s);
    }
    LinkFrom(s, DoWorker(s, w));
  }

  // The worker gets to a stage before the hand-over only from such a stage or by EmitStarted.
  lemma WorkerBeforeSubmit(s: State, w: WorkerAction)
    requires WorkerEnabled(s, w)
    ensures var w' := DoWorker(s, w).worker;
            BeforeSubmit(w') ==> w'.id == s.worker.id && (BeforeSubmit(s.worker) || w.EmitStarted?)
    ensures w.EmitStarted? ==> s.worker.Sized?
  {
  }

  lemma LinkFrom(s: State, s': State)
    requires Link(s) && s'.db == s.db && s'.writer == s.writer && StartedIds(s.log) <= StartedIds(s'.log)
    requires BeforeSubmit(s'.worker) ==> s'.worker.id !in s.db.headers
    requires WriterBusy(s.writer) ==> s'.worker == s.worker
    requires !s'.worker.Waiting? ==> s'.inbox == [] && s'.reply.None?
    requires s'.worker.Waiting? ==> Handover(s')
    ensures Link(s')
  {
    forall id | id in s'.db.headers ensures id in StartedIds(s'.log) {
      assert id in StartedIds(s.log);
    }
  }

  lemma WorkerKeepsChannels(s: State, w: WorkerAction)
    requires Link(s) && WorkerEnabled(s, w)
    ensures var s' := DoWorker(s, w);
            && (WriterBusy(s.writer) ==> s'.worker == s.worker)
            && (!s'.worker.Waiting? ==> s'.inbox == [] && s'.reply.None?)
            && (s'.worker.Waiting? ==> Handover(s'))
  {
  }

  lemma WorkerKeepsStored(s: State, w: WorkerAction)
    requires Stored(s) && Link(s) && WorkerEnabled(s, w)
    ensures Stored(DoWorker(s, w))
  {
    if !w.Stamp? && !w.Submit? {
      var s' := DoWorker(s, w);
      assert s'.stamped == s.stamped && s'.inbox == s.inbox;
    }
  }

  // Only AdapterOk and Stamp touch what is known about segments.
  lemma WorkerSegments(s: State, w: WorkerAction)
    requires WorkerEnabled(s, w)
    ensures var s' := DoWorker(s, w);
            && (!w.AdapterOk? ==> s'.produced == s.produced)
            && (!w.Stamp? ==> s'.stamped == s.stamped)
            && s.seen <= s'.seen
            && (w.AdapterOk? ==> s.worker.Transcribing? && s'.worker == Transcribed(s.worker.id, w.segments)
                                 && s'.produced == s.produced[s.worker.id := w.segments]
                                 && IdsOf(w.segments) <= s'.seen)
            && (w.Stamp? ==> s.worker.Transcribed? && s'.worker == Produced(s.worker.id, s'.stamped[s.worker.id])
                             && s'.stamped == s.stamped[s.worker.id := Stamped(s.worker.segments, w.minted)]
                             && IdsOf(s'.stamped[s.worker.id]) <= s'.seen)
  {
  }

  lemma WorkerStage(s: State, w: WorkerAction)
    requires WorkerEnabled(s, w)
    ensures var w' := DoWorker(s, w).worker;
            && (w'.Resolving? || w'.Transcribing? || w'.Transcribed? ==>
                  w.EmitStarted? || ((s.worker.Resolving? || s.worker.Transcribing? || s.worker.Transcribed?)
                                     && w'.id == s.worker.id && !w.Stamp?))
            && (w.EmitStarted? ==> s.worker.Sized? && w'.id == s.worker.id)
            && (w'.Transcribed? && !w.AdapterOk? ==> w' == s.worker)
            && (w'.Produced? || w'.Submitting? || w'.Waiting? ==>
                  w.Stamp? || ((s.worker.Produced? || s.worker.Submitting? || s.worker.Waiting?)
                               && w'.id == s.worker.id))
  {
  }

  lemma StampedIsStampOf(seen: set<nat>, raw: seq<Segment>, minted: seq<nat>)
    requires |minted| == |raw| && Fresh(seen, minted) && IdsOf(raw) <= seen
    ensures StampOf(raw, Stamped(raw, minted))
    ensures forall i :: 0 <= i < |raw| && raw[i].id == 0 ==> Stamped(raw, minted)[i].id !in seen
  {
    assert forall i :: 0 <= i < |raw| ==> raw[i].id in IdsOf(raw);
  }

  lemma WorkerKeepsStamps(s: State, w: WorkerAction)
    requires Fifo(s) && Stamps(s) && WorkerEnabled(s, w)
    ensures Stamps(DoWorker(s, w))
  {
    var s' := DoWorker(s, w);
    WorkerLog(s, w);
    WorkerSegments(s, w);
    WorkerStage(s, w);
    if w.EmitStarted? {
      NotStartedTwice(s);
    }
    forall id | id in s'.stamped ensures id in StartedIds(s'.log) && StampedFrom(s', id) {
      if w.Stamp? && id == s.worker.id {
        StampedIsStampOf(s.seen, s.worker.segments, w.minted);
      } else {
        assert StampedFrom(s, id);
      }
    }
  }

  // An id not met before is the id of no stored row.
  lemma UnseenIsFree(s: State, key: nat)
    requires Stored(s) && Stamps(s) && s.db.earlier <= s.seen && key !in s.seen
    ensures KeyFree(s.db, key)
  {
    forall id, i | id in s.db.rows && 0 <= i < |s.db.rows[id]| ensures s.db.rows[id][i].id != key {
      assert Carries(s, id, s.db.rows[id]);
      assert StampedFrom(s, id);
      assert s.stamped[id][i].id in IdsOf(s.stamped[id]);
    }
  }

  lemma WorkerKeepsKeys(s: State, w: WorkerAction)
    requires Stored(s) && Stamps(s) && Keys(s) && WorkerEnabled(s, w)
    ensures Keys(DoWorker(s, w))
  {
    var s' := DoWorker(s, w);
    WorkerLog(s, w);
    WorkerSegments(s, w);
    WorkerStage(s, w);
    if w.Stamp? {
      var raw := s.worker.segments;
      StampedIsStampOf(s.seen, raw, w.minted);
      forall i | 0 <= i < |raw| && raw[i].id == 0 ensures KeyFree(s.db, Stamped(raw, w.minted)[i].id) {
        UnseenIsFree(s, Stamped(raw, w.minted)[i].id);
      }
    } else if OnItsWay(s') {
      assert NewKeys(s, s.worker.id);
    }
  }

  // A worker action ends at most the job it holds, with one terminal event unless the
  // writer stored the transcript.
  lemma WorkerEnds(s: State, w: WorkerAction, id: JobId)
    requires Link(s) && WorkerEnabled(s, w)
    ensures var ends := Active(s.worker, id) && DoWorker(s, w).worker.Removing?;
            var e := WorkerEmits(s, w);
            && (ends && id !in s.db.headers <==> e == Some(Cancelled(id)) || e == Some(Failed(id)))
            && e != Some(Completed(id))
  {
  }

  lemma WorkerActivity(s: State, w: WorkerAction, id: JobId)
    requires WorkerEnabled(s, w)
    ensures var w' := DoWorker(s, w).worker;
            && (!w.EmitStarted? ==> (Active(w', id) <==> Active(s.worker, id) && !w'.Removing?))
            && (w.EmitStarted? ==> !Active(s.worker, id) && (Active(w', id) <==> id == s.worker.id))
  {
  }

  lemma WorkerKeepsEmissions(s: State, w: WorkerAction)
    requires Fifo(s) && Link(s) && Emissions(s) && WorkerEnabled(s, w)
    ensures Emissions(DoWorker(s, w))
  {
    forall id ensures EmissionsOf(DoWorker(s, w), id) {
      assert EmissionsOf(s, id);
      WorkerKeepsEmissionsOf(s, w, id);
    }
  }

  lemma WorkerKeepsEmissionsOf(s: State, w: WorkerAction, id: JobId)
    requires Fifo(s) && Link(s) && EmissionsOf(s, id) && WorkerEnabled(s, w)
    ensures EmissionsOf(DoWorker(s, w), id)
  {
    WorkerEnds(s, w, id);
    WorkerActivity(s, w, id);
    WorkerLog(s, w);
    if w.EmitStarted? {
      NotStartedTwice(s);
    }
    WorkerCounts(s, w, id);
    ActiveStarted(s, id);
  }

  lemma ActiveStarted(s: State, id: JobId)
    requires Fifo(s)
    ensures Active(s.worker, id) ==> id in StartedIds(s.log)
  {
  }

  lemma WorkerCounts(s: State, w: WorkerAction, id: JobId)
    requires WorkerEnabled(s, w)
    ensures var e, log' := WorkerEmits(s, w), DoWorker(s, w).log;
            && Completions(log', id) == Completions(s.log, id) + (if e == Some(Completed(id)) then 1 else 0)
            && WorkerTerminals(log', id) == WorkerTerminals(s.log, id) +
                                            (if e == Some(Cancelled(id)) || e == Some(Failed(id)) then 1 else 0)
  {
    WorkerAppends(s, w);
    if WorkerEmits(s, w).Some? {
      CountsGrow(s.log, WorkerEmits(s, w).value, id);
    }
  }

  // --- writer ---

  lemma WriterFrame(s: State, x: WriterAction)
    requires WriterEnabled(s, x)
    ensures DoWriter(s, x).intake == s.intake && DoWriter(s, x).tokens == s.tokens
    ensures DoWriter(s, x).queue == s.queue && DoWriter(s, x).worker == s.worker
    ensures DoWriter(s, x).log == (if x.EmitCompleted? then s.log + [Completed(s.writer.id)] else s.log)
  {
  }

  lemma WriterKeepsQueueSide(s: State, x: WriterAction)
    requires Fifo(s) && Stages(s.intake) && Tokens(s) && Link(s) && WriterEnabled(s, x)
    ensures Fifo(DoWriter(s, x)) && Stages(DoWriter(s, x).intake) && Tokens(DoWriter(s, x))
    ensures StartedIds(DoWriter(s, x).log) == StartedIds(s.log)
  {
    WriterFrame(s, x);
    WriterLog(s, x);
  }

  lemma WriterLog(s: State, x: WriterAction)
    requires Link(s) && StartedFirst(s.log) && WriterEnabled(s, x)
    ensures StartedIds(DoWriter(s, x).log) == StartedIds(s.log) && StartedFirst(DoWriter(s, x).log)
  {
    WriterFrame(s, x);
    if x.EmitCompleted? {
      StartedIdsGrow(s.log, Completed(s.writer.id));
      StartedFirstGrows(s.log, Completed(s.writer.id));
    }
  }

  lemma WriterKeepsBounds(s: State, x: WriterAction)
    requires Bounds(s) && WriterEnabled(s, x)
    ensures Bounds(DoWriter(s, x))
  {
  }

  lemma WriterKeepsLink(s: State, x: WriterAction)
    requires Fifo(s) && Link(s) && Stored(s) && WriterEnabled(s, x)
    requires StartedIds(DoWriter(s, x).log) == StartedIds(s.log)
    ensures Link(DoWriter(s, x))
  {
    WriterFrame(s, x);
    WriterStores(s, x);
    WriterKeepsHandover(s, x);
  }

  // The writer stores only the waiting job's transcript, and works for the waiting job only.
  lemma WriterStores(s: State, x: WriterAction)
    requires Link(s) && Stored(s) && WriterEnabled(s, x)
    ensures var s' := DoWriter(s, x);
            && (x.Commit? && x.ok ==> s.worker.Waiting? && s'.db.headers == s.db.headers + {s.worker.id})
            && (!(x.Commit? && x.ok) ==> s'.db == s.db)
            && (WriterBusy(s'.writer) ==> s.worker.Waiting? && s'.writer.id == s.worker.id)
            && (s'.writer.WEmit? ==> s'.writer.id in s.db.headers)
  {
  }

  lemma WriterKeepsHandover(s: State, x: WriterAction)
    requires Link(s) && Stored(s) && WriterEnabled(s, x) && DoWriter(s, x).worker == s.worker
    ensures s.worker.Waiting? ==> Handover(DoWriter(s, x))
    ensures !s.worker.Waiting? ==> DoWriter(s, x).inbox == [] && DoWriter(s, x).reply.None?
  {
  }

  lemma WriterKeepsStored(s: State, x: WriterAction)
    requires Link(s) && Stored(s) && WriterEnabled(s, x)
    ensures Stored(DoWriter(s, x))
  {
    if x.InsertSegment? {
      var w := s.writer;
      assert w.segments[..w.k] + [w.segments[w.k]] == w.segments[..w.k + 1];
    }
    if x.Commit? {
      assert s.writer.segments[..s.writer.k] == s.writer.segments;
    }
  }

  lemma WriterLeaves(s: State, x: WriterAction)
    requires WriterEnabled(s, x)
    ensures var s' := DoWriter(s, x);
            && s'.produced == s.produced && s'.stamped == s.stamped && s'.seen == s.seen
            && s'.db == (if x.Commit? && x.ok then s.writer.tx else s.db)
  {
  }

  lemma WriterKeepsStamps(s: State, x: WriterAction)
    requires Stamps(s) && WriterEnabled(s, x)
    requires StartedIds(DoWriter(s, x).log) == StartedIds(s.log)
    ensures Stamps(DoWriter(s, x))
  {
    WriterFrame(s, x);
    WriterLeaves(s, x);
    assert forall id :: id in s.stamped && StampedFrom(s, id) ==> StampedFrom(DoWriter(s, x), id);
  }

  lemma AddedRowUnique(t: Tables, id: JobId, seg: Segment)
    requires Unique(t) && id in t.rows && KeyFree(t, seg.id)
    ensures Unique(WithRow(t, id, seg))
  {
  }

  lemma WriterTx(s: State, x: WriterAction)
    requires Keys(s) && Stored(s) && WriterEnabled(s, x)
    ensures var w' := DoWriter(s, x).writer; w'.WCheck? || w'.WInsert? ==> Unique(w'.tx)
  {
    if x.InsertSegment? && x.ok {
      AddedRowUnique(s.writer.tx, s.writer.id, s.writer.segments[s.writer.k]);
    }
  }

  lemma WriterKeepsKeys(s: State, x: WriterAction)
    requires Keys(s) && Stored(s) && Link(s) && WriterEnabled(s, x)
    ensures Keys(DoWriter(s, x))
  {
    WriterTx(s, x);
    WriterFrame(s, x);
    WriterLeaves(s, x);
    WriterStores(s, x);
    if OnItsWay(DoWriter(s, x)) {
      assert NewKeys(s, s.worker.id);
    }
  }

  lemma WriterKeepsEmissions(s: State, x: WriterAction)
    requires Link(s) && Stored(s) && Emissions(s) && WriterEnabled(s, x)
    requires StartedIds(DoWriter(s, x).log) == StartedIds(s.log)
    ensures Emissions(DoWriter(s, x))
  {
    forall id ensures EmissionsOf(DoWriter(s, x), id) {
      assert EmissionsOf(s, id);
      WriterKeepsEmissionsOf(s, x, id);
    }
  }

  lemma WriterKeepsEmissionsOf(s: State, x: WriterAction, id: JobId)
    requires Link(s) && Stored(s) && EmissionsOf(s, id) && WriterEnabled(s, x)
    requires StartedIds(DoWriter(s, x).log) == StartedIds(s.log)
    ensures EmissionsOf(DoWriter(s, x), id)
  {
    WriterFrame(s, x);
    WriterOwes(s, x, id);
    WriterCounts(s, x, id);
    assert Finished(DoWriter(s, x), id) == Finished(s, id);
  }

  lemma WriterCounts(s: State, x: WriterAction, id: JobId)
    requires WriterEnabled(s, x)
    ensures var log' := DoWriter(s, x).log;
            && Completions(log', id) == Completions(s.log, id) + (if x.EmitCompleted? && id == s.writer.id then 1 else 0)
            && WorkerTerminals(log', id) == WorkerTerminals(s.log, id)
  {
    WriterFrame(s, x);
    if x.EmitCompleted? {
      CountsGrow(s.log, Completed(s.writer.id), id);
    }
  }

  // Only a commit stores a transcript, of the job the worker waits for, and leaves its
  // Completed event owed; only EmitCompleted pays it.
  lemma WriterOwes(s: State, x: WriterAction, id: JobId)
    requires Link(s) && Stored(s) && WriterEnabled(s, x)
    ensures var s' := DoWriter(s, x);
            var commits := x.Commit? && x.ok && id == s.writer.id;
            && (commits ==> s.worker.Waiting? && s.worker.id == id && id !in s.db.headers)
            && (id in s'.db.headers <==> id in s.db.headers || commits)
            && (Owed(s'.writer, id) <==> commits || (Owed(s.writer, id) && !x.EmitCompleted?))
            && (x.EmitCompleted? ==> (Owed(s.writer, id) <==> id == s.writer.id) && s.writer.id in s.db.headers)
  {
  }

  // --- any action, any run ---

  lemma StepKeepsInv(s: State, a: Action)
    requires Inv(s) && Enabled(s, a)
    ensures Inv(Do(s, a))
  {
    match a
    case Call(c) =>
      CallerKeepsFifo(s, c);
      CallerKeepsStages(s, c);
      CallerKeepsBounds(s, c);
      CallerKeepsTokens(s, c);
      CallerKeepsRest(s, c);
      CallerKeepsStamps(s, c);
    case Work(w) =>
      WorkerKeepsFifo(s, w);
      WorkerFrame(s, w);
      WorkerKeepsBounds(s, w);
      WorkerKeepsTokens(s, w);
      WorkerKeepsLink(s, w);
      WorkerKeepsStored(s, w);
      WorkerKeepsStamps(s, w);
      WorkerKeepsKeys(s, w);
      WorkerKeepsEmissions(s, w);
    case Write(x) =>
      WriterKeepsQueueSide(s, x);
      WriterKeepsBounds(s, x);
      WriterKeepsLink(s, x);
      WriterKeepsStored(s, x);
      WriterKeepsStamps(s, x);
      WriterKeepsKeys(s, x);
      WriterKeepsEmissions(s, x);
  }

  lemma {:induction false} RunKeepsInv(s: State, acts: seq<Action>)
    requires Inv(s) && Run(s, acts).Some?
    ensures Inv(Run(s, acts).value)
    decreases |acts|
  {
    if acts != [] {
      StepKeepsInv(s, acts[0]);
      RunKeepsInv(Do(s, acts[0]), acts[1..]);
    }
  }

  lemma {:induction false} RunConcat(s: State, acts: seq<Action>, more: seq<Action>)
    requires Run(s, acts).Some?
    ensures Run(s, acts + more) == Run(Run(s, acts).value, more)
    decreases |acts|
  {
    if acts == [] {
      assert acts + more == more;
    } else {
      assert (acts + more)[1..] == acts[1..] + more;
      RunConcat(Do(s, acts[0]), acts[1..], more);
    }
  }

  lemma ReachableOn(s: State, more: seq<Action>)
    requires Reachable(s) && Run(s, more).Some?
    ensures Reachable(Run(s, more).value)
  {
    var start, acts :| Initial(start) && Run(start, acts) == Some(s);
    RunConcat(start, acts, more);
  }

  // The state after one more action.
  lemma Then(s: State, a: Action) returns (s': State)
    requires Reachable(s) && Enabled(s, a)
    ensures s' == Do(s, a) && Reachable(s')
  {
    s' := Do(s, a);
    assert Run(s', []) == Some(s');
    assert [a][1..] == [];
    ReachableOn(s, [a]);
  }

  lemma InitFifo(start: State)
    requires Initial(start)
    ensures Fifo(start)
  {
    assert StartedIds(start.log) == [];
  }

  lemma InitTokens(start: State)
    requires Initial(start)
    ensures Stages(start.intake) && Bounds(start) && Tokens(start)
  {
    assert start.queue == [] && start.worker.Idle?;
    forall id ensures id !in start.tokens.cancels && !Held(start, id) {
    }
  }

  lemma InitEmissions(start: State)
    requires Initial(start)
    ensures Emissions(start)
  {
    assert multiset(start.log) == multiset{};
    forall id ensures EmissionsOf(start, id) {
      assert StartedIds(start.log) == [];
    }
  }

  lemma InitTables(start: State)
    requires Initial(start)
    ensures Link(start) && Stored(start)
  {
  }

  lemma InitKeys(start: State)
    requires Initial(start)
    ensures Stamps(start) && Keys(start)
  {
  }

  lemma InitInv(start: State)
    requires Initial(start)
    ensures Inv(start)
  {
    InitFifo(start);
    InitTokens(start);
    InitEmissions(start);
    InitTables(start);
    InitKeys(start);
  }

  lemma ReachableInv(s: State)
    requires Reachable(s)
    ensures Inv(s)
  {
    var start, acts :| Initial(start) && Run(start, acts) == Some(s);
    InitInv(start);
    RunKeepsInv(start, acts);
  }
}
