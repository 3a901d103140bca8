/**
 The transcription job protocol: non-atomic Start callers, Cancel callers, one FIFO worker
 behind a bounded queue, and the single database writer.

 One `Action` is one atomic section of the source (a mutex-guarded block, a channel
 operation, one token check, one SQL statement, one event emission).  Callers, worker and
 writer interleave freely between actions.
 */
module Transcription {
  import opened Prelude

  const QUEUE_DEPTH: nat := 32

  // A request id is a fresh UUIDv7; a segment id 0 is the nil UUID the adapters leave behind.
  type JobId = nat
  datatype Segment = Segment(id: nat, text: string)

  datatype Event =
    | Started(id: JobId, queueSize: nat)
    | Progress(id: JobId)
    | Completed(id: JobId)
    | Cancelled(id: JobId)
    | Failed(id: JobId)

  // What a Start call returns to its caller.
  datatype Output = Enqueued(position: nat) | QueueFull(queued: nat)

  // The transcript table (one header per job) and the transcript_segment table; `earlier` are the
  // ids of the segments the table already held when the process began.
  datatype Tables = Tables(headers: set<JobId>, rows: map<JobId, seq<Segment>>, earlier: set<nat>)

  datatype Command = Command(id: JobId, segments: seq<Segment>)

  datatype Reply = Inserted | WriteCancelled | WriteFailed

  // Where the worker loop stands.
  datatype Worker =
    | Idle
    | Dequeued(id: JobId)                            // recv returned; queue length not read yet
    | Sized(id: JobId, queueSize: nat)               // Started not emitted yet
    | Resolving(id: JobId)                           // registry.active() is next
    | Transcribing(id: JobId)                        // inside the adapter call
    | Transcribed(id: JobId, segments: seq<Segment>) // segment ids not stamped yet
    | Produced(id: JobId, segments: seq<Segment>)    // pre-write token check is next
    | Submitting(id: JobId, segments: seq<Segment>)  // send to the writer is next
    | Waiting(id: JobId)                             // blocked on the writer's reply
    | Removing(id: JobId)                            // process_one returned; token removal is next

  // Where the writer thread stands; `tx` is the open transaction's view of the tables.
  datatype Writer =
    | WIdle
    | WBegun(id: JobId, segments: seq<Segment>)
    | WHeader(id: JobId, segments: seq<Segment>)
    | WCheck(id: JobId, segments: seq<Segment>, k: nat, tx: Tables)
    | WInsert(id: JobId, segments: seq<Segment>, k: nat, tx: Tables)
    | WReply(id: JobId, result: Reply)
    | WEmit(id: JobId)
    | WStopped

  // The Start calls: how far each call in flight got, and what came of the others.
  datatype Intake = Intake(
    used: set<JobId>,
    tokenInserted: set<JobId>,
    lenRead: map<JobId, nat>,
    rejected: map<JobId, nat>,
    accepted: seq<JobId>,
    returned: map<JobId, Output>)

  // The shared `cancels` map, tokens taken out of it but not fired yet, and fired tokens.
  datatype TokenTable = TokenTable(cancels: set<JobId>, firing: set<JobId>, fired: set<JobId>)

  datatype State = State(
    intake: Intake,
    tokens: TokenTable,
    queue: seq<JobId>,
    worker: Worker,
    inbox: seq<Command>,                  // the writer's command channel
    reply: Option<Reply>,                 // the one-shot reply channel
    writer: Writer,
    db: Tables,
    log: seq<Event>,                      // every emission attempt
    produced: map<JobId, seq<Segment>>,   // what the adapter returned for each job
    stamped: map<JobId, seq<Segment>>,    // the same with every nil id replaced
    seen: set<nat>)                       // segment ids stored earlier, returned by adapters, or minted

  // The process begins with these segment ids in its database.
  function Init(earlier: set<nat>): State {
    State(Intake({}, {}, map[], map[], [], map[]), TokenTable({}, {}, {}),
          [], Idle, [], None, WIdle, Tables({}, map[], earlier), [], map[], map[], earlier)
  }

  const INIT: State := Init({})

  predicate Initial(s: State) {
    s == Init(s.db.earlier) && 0 !in s.db.earlier
  }

  datatype CallerAction =
    | InsertToken(id: JobId)
    | ReadLen(id: JobId)
    | TrySend(id: JobId)
    | RemoveOnFull(id: JobId)
    | TakeToken(id: JobId)
    | FireToken(id: JobId)

  datatype WorkerAction =
    | Receive
    | ReadQueueSize
    | EmitStarted
    | ResolveBackend(ok: bool)
    | EmitProgress(id: JobId)
    | AdapterOk(segments: seq<Segment>)
    | AdapterErr(cancelled: bool)
    | Stamp(minted: seq<nat>)
    | PreWriteCheck
    | Submit
    | TakeReply
    | ReplyLost
    | RemoveToken

  datatype WriterAction =
    | Begin(ok: bool)
    | CheckAfterBegin
    | InsertHeader(ok: bool)
    | CheckBeforeSegment
    | InsertSegment(ok: bool)
    | Commit(ok: bool)
    | SendReply
    | EmitCompleted
    | Shutdown

  datatype Action = Call(c: CallerAction) | Work(w: WorkerAction) | Write(x: WriterAction)

  // ---------------------------------------------------------------------------
  // Start and Cancel callers
  // ---------------------------------------------------------------------------

  predicate CallerEnabled(s: State, c: CallerAction) {
    match c
    case InsertToken(id) => id !in s.intake.used
    case ReadLen(id) => id in s.intake.tokenInserted
    case TrySend(id) => id in s.intake.lenRead
    case RemoveOnFull(id) => id in s.intake.rejected
    case TakeToken(id) => true
    case FireToken(id) => id in s.tokens.firing
  }

  function DoCaller(s: State, c: CallerAction): State
    requires CallerEnabled(s, c)
  {
    match c
    case InsertToken(id) =>
      s.(intake := s.intake.(used := s.intake.used + {id}, tokenInserted := s.intake.tokenInserted + {id}),
         tokens := s.tokens.(cancels := s.tokens.cancels + {id}))
    case ReadLen(id) =>
      s.(intake := s.intake.(tokenInserted := s.intake.tokenInserted - {id},
                             lenRead := s.intake.lenRead[id := |s.queue|]))
    case TrySend(id) =>
      if |s.queue| < QUEUE_DEPTH then s.(intake := Accept(s.intake, id), queue := s.queue + [id])
      else s.(intake := s.intake.(lenRead := s.intake.lenRead - {id},
                                  rejected := s.intake.rejected[id := s.intake.lenRead[id]]))
    case RemoveOnFull(id) =>
      s.(intake := s.intake.(rejected := s.intake.rejected - {id},
                             returned := s.intake.returned[id := QueueFull(s.intake.rejected[id])]),
         tokens := s.tokens.(cancels := s.tokens.cancels - {id}))
    case TakeToken(id) =>
      if id !in s.tokens.cancels then s
      else s.(tokens := s.tokens.(cancels := s.tokens.cancels - {id}, firing := s.tokens.firing + {id}))
    case FireToken(id) =>
      s.(tokens := s.tokens.(firing := s.tokens.firing - {id}, fired := s.tokens.fired + {id}))
  }

  function Accept(i: Intake, id: JobId): Intake
    requires id in i.lenRead
  {
    i.(lenRead := i.lenRead - {id}, accepted := i.accepted + [id],
       returned := i.returned[id := Enqueued(i.lenRead[id] + 1)])
  }

  // ---------------------------------------------------------------------------
  // The worker loop
  // ---------------------------------------------------------------------------

  // The segments with every nil id replaced by the id minted for that place.
  function Stamped(segments: seq<Segment>, minted: seq<nat>): seq<Segment>
    requires |minted| == |segments|
  {
    seq(|segments|, i requires 0 <= i < |segments| =>
      if segments[i].id == 0 then segments[i].(id := minted[i]) else segments[i])
  }

  // What stamping keeps and what it adds: texts and assigned ids stay in place, no id is nil,
  // and an id put in place of a nil one occurs nowhere else in the transcript.
  ghost predicate StampOf(raw: seq<Segment>, rows: seq<Segment>) {
    && |rows| == |raw|
    && (forall i :: 0 <= i < |raw| ==> rows[i].text == raw[i].text && rows[i].id != 0)
    && (forall i :: 0 <= i < |raw| && raw[i].id != 0 ==> rows[i] == raw[i])
    && (forall i, j :: 0 <= i < |raw| && 0 <= j < |raw| && i != j && raw[i].id == 0 ==> rows[i].id != rows[j].id)
  }

  // One new id per place: not nil, not met before, no two alike.
  predicate Fresh(seen: set<nat>, minted: seq<nat>) {
    Distinct(minted) && forall i :: 0 <= i < |minted| ==> minted[i] != 0 && minted[i] !in seen
  }

  function IdsOf(segments: seq<Segment>): set<nat> {
    set i | 0 <= i < |segments| :: segments[i].id
  }

  predicate WorkerEnabled(s: State, w: WorkerAction) {
    match w
    case Receive => s.worker.Idle? && s.queue != []
    case ReadQueueSize => s.worker.Dequeued?
    case EmitStarted => s.worker.Sized?
    case ResolveBackend(_) => s.worker.Resolving?
    case EmitProgress(id) => id in StartedIds(s.log)
    case AdapterOk(_) => s.worker.Transcribing?
    case AdapterErr(_) => s.worker.Transcribing?
    case Stamp(minted) => s.worker.Transcribed? && |minted| == |s.worker.segments| && Fresh(s.seen, minted)
    case PreWriteCheck => s.worker.Produced?
    case Submit => s.worker.Submitting?
    case TakeReply => s.worker.Waiting? && s.reply.Some?
    case ReplyLost => s.worker.Waiting? && s.reply.None? && s.writer.WStopped? && s.inbox == []
    case RemoveToken => s.worker.Removing?
  }

  function Terminal(id: JobId, cancelled: bool): Event {
    if cancelled then Cancelled(id) else Failed(id)
  }

  // The worker emits the terminal event of its job and returns from process_one.
  function Finish(s: State, e: Event): State {
    s.(log := s.log + [e], worker := Removing(e.id))
  }

  function DoWorker(s: State, w: WorkerAction): State
    requires WorkerEnabled(s, w)
  {
    match w
    case Receive => s.(worker := Dequeued(s.queue[0]), queue := s.queue[1..])
    case ReadQueueSize => s.(worker := Sized(s.worker.id, |s.queue| + 1))
    case EmitStarted =>
      s.(log := s.log + [Started(s.worker.id, s.worker.queueSize)], worker := Resolving(s.worker.id))
    case ResolveBackend(ok) =>
      if ok then s.(worker := Transcribing(s.worker.id)) else Finish(s, Failed(s.worker.id))
    case EmitProgress(id) => s.(log := s.log + [Progress(id)])
    case AdapterOk(segments) =>
      s.(worker := Transcribed(s.worker.id, segments), produced := s.produced[s.worker.id := segments],
         seen := s.seen + IdsOf(segments))
    case AdapterErr(cancelled) => Finish(s, Terminal(s.worker.id, cancelled))
    case Stamp(minted) =>
      var rows := Stamped(s.worker.segments, minted);
      s.(worker := Produced(s.worker.id, rows), stamped := s.stamped[s.worker.id := rows],
         seen := s.seen + IdsOf(rows))
    case PreWriteCheck =>
      if s.worker.id in s.tokens.fired then Finish(s, Cancelled(s.worker.id))
      else s.(worker := Submitting(s.worker.id, s.worker.segments))
    case Submit =>
      if s.writer.WStopped? then Finish(s, Failed(s.worker.id))
      else s.(inbox := s.inbox + [Command(s.worker.id, s.worker.segments)], worker := Waiting(s.worker.id))
    case TakeReply =>
      var cleared := s.(reply := None);
      if s.reply.value.Inserted? then cleared.(worker := Removing(s.worker.id))
      else Finish(cleared, Terminal(s.worker.id, s.reply.value.WriteCancelled?))
    case ReplyLost => Finish(s, Failed(s.worker.id))
    case RemoveToken => s.(tokens := s.tokens.(cancels := s.tokens.cancels - {s.worker.id}), worker := Idle)
  }

  // ---------------------------------------------------------------------------
  // The writer thread: reply first, Completed afterwards
  // ---------------------------------------------------------------------------

  predicate WriterEnabled(s: State, x: WriterAction) {
    match x
    case Begin(_) => s.writer.WIdle? && s.inbox != []
    case CheckAfterBegin => s.writer.WBegun?
    case InsertHeader(_) => s.writer.WHeader?
    case CheckBeforeSegment => s.writer.WCheck? && s.writer.k < |s.writer.segments|
    case InsertSegment(ok) =>
      && s.writer.WInsert? && s.writer.k < |s.writer.segments|
      && (ok ==> KeyFree(s.writer.tx, s.writer.segments[s.writer.k].id))
    case Commit(_) => s.writer.WCheck? && s.writer.k >= |s.writer.segments|
    case SendReply => s.writer.WReply?
    case EmitCompleted => s.writer.WEmit?
    case Shutdown => s.writer.WIdle?
  }

  // The segment id is the primary key: a row is refused when any stored row has its id.
  predicate KeyFree(t: Tables, key: nat) {
    && key !in t.earlier
    && forall id :: id in t.rows ==> forall i :: 0 <= i < |t.rows[id]| ==> t.rows[id][i].id != key
  }

  function WithHeader(t: Tables, id: JobId): Tables {
    t.(headers := t.headers + {id}, rows := t.rows[id := []])
  }

  function WithRow(t: Tables, id: JobId, seg: Segment): Tables {
    t.(rows := t.rows[id := (if id in t.rows then t.rows[id] else []) + [seg]])
  }

  // Drop of the open transaction: the tables keep their committed contents.
  function Rollback(s: State, why: Reply): State
    requires !s.writer.WIdle? && !s.writer.WStopped?
  {
    s.(writer := WReply(s.writer.id, why))
  }

  function DoWriter(s: State, x: WriterAction): State
    requires WriterEnabled(s, x)
  {
    match x
    case Begin(ok) =>
      var cmd := s.inbox[0];
      s.(inbox := s.inbox[1..], writer := if ok then WBegun(cmd.id, cmd.segments) else WReply(cmd.id, WriteFailed))
    case CheckAfterBegin =>
      if s.writer.id in s.tokens.fired then Rollback(s, WriteCancelled)
      else s.(writer := WHeader(s.writer.id, s.writer.segments))
    case InsertHeader(ok) =>
      if !ok then Rollback(s, WriteFailed)
      else s.(writer := WCheck(s.writer.id, s.writer.segments, 0, WithHeader(s.db, s.writer.id)))
    case CheckBeforeSegment =>
      if s.writer.id in s.tokens.fired then Rollback(s, WriteCancelled)
      else s.(writer := WInsert(s.writer.id, s.writer.segments, s.writer.k, s.writer.tx))
    case InsertSegment(ok) =>
      var w := s.writer;
      if !ok then Rollback(s, WriteFailed)
      else s.(writer := WCheck(w.id, w.segments, w.k + 1, WithRow(w.tx, w.id, w.segments[w.k])))
    case Commit(ok) =>
      if !ok then Rollback(s, WriteFailed)
      else s.(db := s.writer.tx, writer := WReply(s.writer.id, Inserted))
    case SendReply =>
      s.(reply := Some(s.writer.result),
         writer := if s.writer.result.Inserted? then WEmit(s.writer.id) else WIdle)
    case EmitCompleted => s.(log := s.log + [Completed(s.writer.id)], writer := WIdle)
    case Shutdown => s.(writer := WStopped, inbox := [])
  }

  // ---------------------------------------------------------------------------
  // Runs
  // ---------------------------------------------------------------------------

  predicate Enabled(s: State, a: Action) {
    match a
    case Call(c) => CallerEnabled(s, c)
    case Work(w) => WorkerEnabled(s, w)
    case Write(x) => WriterEnabled(s, x)
  }

  function Do(s: State, a: Action): State
    requires Enabled(s, a)
  {
    match a
    case Call(c) => DoCaller(s, c)
    case Work(w) => DoWorker(s, w)
    case Write(x) => DoWriter(s, x)
  }

  // The state an interleaving leads to, None when some action was not enabled.
  function Run(s: State, acts: seq<Action>): Option<State>
    decreases |acts|
  {
    if acts == [] then Some(s)
    else if Enabled(s, acts[0]) then Run(Do(s, acts[0]), acts[1..])
    else None
  }

  ghost predicate Reachable(s: State) {
    exists start, acts :: Initial(start) && Run(start, acts) == Some(s)
  }

  // Ids in the order their Started event was emitted.
  function StartedIds(log: seq<Event>): seq<JobId> {
    if log == [] then []
    else
      var e := log[|log| - 1];
      StartedIds(log[..|log| - 1]) + (if e.Started? then [e.id] else [])
  }

  // Nothing is said about a job before its Started event.
  ghost predicate StartedFirst(log: seq<Event>) {
    forall j :: 0 <= j < |log| && !log[j].Started? ==> log[j].id in StartedIds(log[..j])
  }

  ghost function WorkerTerminals(log: seq<Event>, id: JobId): nat {
    multiset(log)[Cancelled(id)] + multiset(log)[Failed(id)]
  }

  ghost function Completions(log: seq<Event>, id: JobId): nat {
    multiset(log)[Completed(id)]
  }

  // The number of terminal events emitted for a job.
  ghost function Terminals(log: seq<Event>, id: JobId): nat {
    Completions(log, id) + WorkerTerminals(log, id)
  }

  // No Start or Cancel call in flight, nothing queued, worker and writer at rest.
  predicate Quiescent(s: State) {
    && s.intake.tokenInserted == {} && s.intake.lenRead == map[] && s.intake.rejected == map[]
    && s.tokens.firing == {}
    && s.queue == [] && s.worker.Idle? && s.inbox == []
    && (s.writer.WIdle? || s.writer.WStopped?)
  }
}
