/**
 The full-hash batch runner: any number of batches run at once, each working through its files
 in order, while callers may cancel them at any point.  One action is one atomic section:
 a map access, a token check, one port call, one event emission.
 */
module FullHashBatch {
  import opened Prelude
  import opened Hex

  type BatchId = nat
  type FileId = nat

  datatype Failure = NotMounted | IoFailure | RepoFailure

  datatype Outcome = Computed(file: FileId, hash: Hash) | Failed(file: FileId, why: Failure)

  datatype Event =
    | VerifyProgress(batch: BatchId, filesDone: nat, filesTotal: nat, outcome: Outcome)
    | VerifyComplete(batch: BatchId)

  datatype Stage =
    | Checking                    // top of the loop: out of files? token fired?
    | LookingUp
    | Hashing
    | Updating(hash: Hash)
    | Reporting(outcome: Outcome)
    | Completing
    | CleaningUp
    | Exited

  // A spawned task; `outcomes` are the files reported so far, `answers` what the ports answered
  // for each of them, `heard` what they answered for the file in hand.
  datatype Task = Task(
    files: seq<FileId>, outcomes: seq<Outcome>, stage: Stage, answers: seq<seq<Answer>>, heard: seq<Answer>)

  // A successful `update_full_hash`.
  datatype RepoWrite = RepoWrite(batch: BatchId, file: FileId, hash: Hash)

  datatype State = State(
    tokens: set<BatchId>,           // the `batches` map
    firing: set<BatchId>,           // taken by a cancel, not fired yet
    fired: set<BatchId>,
    tasks: map<BatchId, Task>,
    log: seq<Event>,
    writes: seq<RepoWrite>,
    cancelled: seq<BatchId>)        // successful cancel_batch calls

  const INIT: State := State({}, {}, {}, map[], [], [], [])

  // What the port call of the current stage answers.
  datatype Answer =
    | Found
    | Absent
    | Hashed(hash: Hash)
    | Done
    | Error

  datatype Action =
    | StartBatch(batch: BatchId, files: seq<FileId>)
    | TakeToken(batch: BatchId)
    | FireToken(batch: BatchId)
    | Advance(batch: BatchId, answer: Answer)

  function CapU32(n: nat): nat {
    Min(n, U32_MAX)
  }

  // What the port called in this stage may answer.
  predicate FitsStage(stage: Stage, answer: Answer) {
    match stage
    case LookingUp => answer.Found? || answer.Absent? || answer.Error?
    case Hashing => answer.Hashed? || answer.Error?
    case Updating(_) => answer.Done? || answer.Error?
    case _ => true
  }

  predicate Enabled(s: State, a: Action) {
    match a
    case StartBatch(b, _) => b !in s.tasks
    case TakeToken(b) => true
    case FireToken(b) => b in s.firing
    case Advance(b, answer) =>
      b in s.tasks && !s.tasks[b].stage.Exited? && FitsStage(s.tasks[b].stage, answer)
  }

  // The file being worked on.
  function Current(t: Task): FileId {
    if |t.outcomes| < |t.files| then t.files[|t.outcomes|] else 0
  }

  function NextTask(t: Task, fired: bool, answer: Answer): Task {
    match t.stage
    case Checking => t.(stage := if |t.outcomes| >= |t.files| || fired then Completing else LookingUp)
    case LookingUp =>
      t.(stage := if answer.Found? then Hashing
                  else Reporting(Failed(Current(t), if answer.Absent? then NotMounted else RepoFailure)),
         heard := t.heard + [answer])
    case Hashing =>
      t.(stage := if answer.Hashed? then Updating(answer.hash) else Reporting(Failed(Current(t), IoFailure)),
         heard := t.heard + [answer])
    case Updating(h) =>
      t.(stage := Reporting(if answer.Done? then Computed(Current(t), h) else Failed(Current(t), RepoFailure)),
         heard := t.heard + [answer])
    case Reporting(outcome) =>
      t.(stage := Checking, outcomes := t.outcomes + [outcome], answers := t.answers + [t.heard], heard := [])
    case Completing => t.(stage := CleaningUp)
    case CleaningUp => t.(stage := Exited)
    case Exited => t
  }

  // The event a task emits when it advances.
  function Emits(b: BatchId, t: Task): seq<Event> {
    match t.stage
    case Reporting(outcome) => [VerifyProgress(b, CapU32(|t.outcomes| + 1), CapU32(|t.files|), outcome)]
    case Completing => [VerifyComplete(b)]
    case _ => []
  }

  function WritesOnAdvance(b: BatchId, t: Task, answer: Answer): seq<RepoWrite> {
    if t.stage.Updating? && answer.Done? then [RepoWrite(b, Current(t), t.stage.hash)] else []
  }

  function Do(s: State, a: Action): State
    requires Enabled(s, a)
  {
    match a
    case StartBatch(b, files) => s.(tokens := s.tokens + {b}, tasks := s.tasks[b := Task(files, [], Checking, [], [])])
    case TakeToken(b) =>
      if b in s.tokens then
        s.(tokens := s.tokens - {b}, firing := s.firing + {b}, cancelled := s.cancelled + [b])
      else s
    case FireToken(b) => s.(firing := s.firing - {b}, fired := s.fired + {b})
    case Advance(b, answer) =>
      var t := s.tasks[b];
      s.(tasks := s.tasks[b := NextTask(t, b in s.fired, answer)],
         log := s.log + Emits(b, t),
         writes := s.writes + WritesOnAdvance(b, t, answer),
         tokens := if t.stage.CleaningUp? then s.tokens - {b} else s.tokens)
  }

  function Run(s: State, acts: seq<Action>): Option<State>
    decreases |acts|
  {
    if acts == [] then Some(s)
    else if Enabled(s, acts[0]) then Run(Do(s, acts[0]), acts[1..])
    else None
  }

  ghost predicate Reachable(s: State) {
    exists acts :: Run(INIT, acts) == Some(s)
  }

  // ---------------------------------------------------------------------------
  // What observers see of one batch
  // ---------------------------------------------------------------------------

  function EventsOf(log: seq<Event>, b: BatchId): seq<Event> {
    if log == [] then []
    else EventsOf(log[..|log| - 1], b) + (if log[|log| - 1].batch == b then [log[|log| - 1]] else [])
  }

  function WritesOf(writes: seq<RepoWrite>, b: BatchId): seq<RepoWrite> {
    if writes == [] then []
    else WritesOf(writes[..|writes| - 1], b) + (if writes[|writes| - 1].batch == b then [writes[|writes| - 1]] else [])
  }

  // Progress reports for the given outcomes: numbered 1, 2, 3, ... up to the u32 limit.
  function Reports(b: BatchId, total: nat, outcomes: seq<Outcome>): seq<Event> {
    seq(|outcomes|, i requires 0 <= i < |outcomes| => VerifyProgress(b, CapU32(i + 1), CapU32(total), outcomes[i]))
  }

  // Everything a batch has said so far.
  function Announcements(b: BatchId, t: Task): seq<Event> {
    Reports(b, |t.files|, t.outcomes) + (if Announced(t) then [VerifyComplete(b)] else [])
  }

  // The hashes a batch promises were stored, in order.
  function StoredBy(b: BatchId, outcomes: seq<Outcome>): seq<RepoWrite> {
    if outcomes == [] then []
    else
      var last := outcomes[|outcomes| - 1];
      StoredBy(b, outcomes[..|outcomes| - 1]) + (if last.Computed? then [RepoWrite(b, last.file, last.hash)] else [])
  }

  predicate MidFile(t: Task) {
    t.stage.LookingUp? || t.stage.Hashing? || t.stage.Updating? || t.stage.Reporting?
  }

  predicate Announced(t: Task) {
    t.stage.CleaningUp? || t.stage.Exited?
  }

  // ---------------------------------------------------------------------------
  // Invariant
  // ---------------------------------------------------------------------------

  ghost predicate TaskInv(t: Task) {
    && |t.outcomes| <= |t.files|
    && (MidFile(t) ==> |t.outcomes| < |t.files|)
    && (forall i :: 0 <= i < |t.outcomes| ==> t.outcomes[i].file == t.files[i])
    && (t.stage.Reporting? ==> t.stage.outcome.file == Current(t))
  }

  // Outcomes including the one about to be reported.
  function Settled(t: Task): seq<Outcome> {
    t.outcomes + (if t.stage.Reporting? then [t.stage.outcome] else [])
  }

  ghost predicate Observed(s: State, b: BatchId)
    requires b in s.tasks
  {
    var t := s.tasks[b];
    && EventsOf(s.log, b) == Announcements(b, t)
    && WritesOf(s.writes, b) == StoredBy(b, Settled(t))
    && (t.stage.Completing? || Announced(t) ==> |t.outcomes| == |t.files| || b in s.fired)
  }

  // The task can still be cancelled.
  predicate Cancellable(s: State, b: BatchId) {
    b in s.tasks && !s.tasks[b].stage.Exited? && b !in s.cancelled
  }

  // A batch has said and stored what its task records, or nothing when it was never started.
  ghost predicate TrackedOne(s: State, b: BatchId) {
    if b in s.tasks then TaskInv(s.tasks[b]) && Observed(s, b)
    else EventsOf(s.log, b) == [] && WritesOf(s.writes, b) == []
  }

  ghost predicate Tracked(s: State) {
    forall b :: TrackedOne(s, b)
  }

  // The map holds the tokens of exactly the tasks that can still be cancelled.
  ghost predicate TokensExact(s: State) {
    && Distinct(s.cancelled)
    && (forall b :: b in s.tokens <==> Cancellable(s, b))
    && (forall b :: b in s.cancelled ==> b in s.tasks)
    && (forall b :: b in s.cancelled <==> b in s.firing || b in s.fired)
  }

  ghost predicate Inv(s: State) {
    Tracked(s) && TokensExact(s)
  }

  lemma EventsGrow(log: seq<Event>, e: Event, b: BatchId)
    ensures EventsOf(log + [e], b) == EventsOf(log, b) + (if e.batch == b then [e] else [])
  {
    assert (log + [e])[..|log|] == log;
  }

  lemma WritesGrow(writes: seq<RepoWrite>, w: RepoWrite, b: BatchId)
    ensures WritesOf(writes + [w], b) == WritesOf(writes, b) + (if w.batch == b then [w] else [])
  {
    assert (writes + [w])[..|writes|] == writes;
  }

  lemma AdvanceLogs(s: State, b: BatchId, answer: Answer, other: BatchId)
    requires Enabled(s, Advance(b, answer))
    ensures var s', t := Do(s, Advance(b, answer)), s.tasks[b];
            && EventsOf(s'.log, other) == EventsOf(s.log, other) + (if other == b then Emits(b, t) else [])
            && WritesOf(s'.writes, other) ==
               WritesOf(s.writes, other) + (if other == b then WritesOnAdvance(b, t, answer) else [])
  {
    EventsAfter(s.log, b, s.tasks[b], other);
    WritesAfter(s.writes, b, s.tasks[b], answer, other);
  }

  lemma EventsAfter(log: seq<Event>, b: BatchId, t: Task, other: BatchId)
    ensures EventsOf(log + Emits(b, t), other) == EventsOf(log, other) + (if other == b then Emits(b, t) else [])
  {
    if Emits(b, t) != [] {
      EventsGrow(log, Emits(b, t)[0], other);
      assert Emits(b, t) == [Emits(b, t)[0]];
    } else {
      assert log + [] == log;
    }
  }

  lemma WritesAfter(writes: seq<RepoWrite>, b: BatchId, t: Task, answer: Answer, other: BatchId)
    ensures WritesOf(writes + WritesOnAdvance(b, t, answer), other) ==
            WritesOf(writes, other) + (if other == b then WritesOnAdvance(b, t, answer) else [])
  {
    if WritesOnAdvance(b, t, answer) != [] {
      WritesGrow(writes, RepoWrite(b, Current(t), t.stage.hash), other);
    } else {
      assert writes + [] == writes;
    }
  }

  lemma AdvanceKeepsTask(t: Task, fired: bool, answer: Answer)
    requires TaskInv(t)
    ensures TaskInv(NextTask(t, fired, answer))
  {
  }

  lemma AdvanceObserved(s: State, b: BatchId, answer: Answer)
    requires Enabled(s, Advance(b, answer)) && TaskInv(s.tasks[b]) && Observed(s, b)
    ensures Observed(Do(s, Advance(b, answer)), b)
  {
    var t := s.tasks[b];
    var t' := NextTask(t, b in s.fired, answer);
    AdvanceLogs(s, b, answer, b);
    SettledGrows(b, t, t', answer, b in s.fired);
    AnnouncementsGrow(b, t, t', answer, b in s.fired);
  }

  lemma AnnouncementsGrow(b: BatchId, t: Task, t': Task, answer: Answer, fired: bool)
    requires t' == NextTask(t, fired, answer)
    ensures Announcements(b, t') == Announcements(b, t) + Emits(b, t)
  {
    if t.stage.Reporting? {
      assert Reports(b, |t.files|, t'.outcomes) == Reports(b, |t.files|, t.outcomes) + Emits(b, t);
    }
  }

  // Updating is the only stage that settles a Computed outcome, and it does so iff it writes.
  lemma SettledGrows(b: BatchId, t: Task, t': Task, answer: Answer, fired: bool)
    requires t' == NextTask(t, fired, answer)
    ensures StoredBy(b, Settled(t')) == StoredBy(b, Settled(t)) + WritesOnAdvance(b, t, answer)
  {
    if t'.stage.Reporting? && !t.stage.Reporting? {
      assert Settled(t')[..|t.outcomes|] == t.outcomes == Settled(t);
    } else {
      assert Settled(t') == Settled(t);
    }
  }

  lemma StepKeepsInv(s: State, a: Action)
    requires Inv(s) && Enabled(s, a)
    ensures Inv(Do(s, a))
  {
    if a.Advance? {
      AdvanceKeepsInv(s, a.batch, a.answer);
    } else {
      CallKeepsTracked(s, a);
      CallKeepsTokens(s, a);
    }
  }

  lemma AdvanceKeepsInv(s: State, b: BatchId, answer: Answer)
    requires Inv(s) && Enabled(s, Advance(b, answer))
    ensures Inv(Do(s, Advance(b, answer)))
  {
    AdvanceKeepsTracked(s, b, answer);
    AdvanceKeepsTokens(s, b, answer);
  }

  lemma AdvanceKeepsTokens(s: State, b: BatchId, answer: Answer)
    requires TokensExact(s) && Enabled(s, Advance(b, answer))
    ensures TokensExact(Do(s, Advance(b, answer)))
  {
    var s' := Do(s, Advance(b, answer));
    assert s'.cancelled == s.cancelled && s'.firing == s.firing && s'.fired == s.fired;
    forall other ensures other in s'.tokens <==> Cancellable(s', other) {
      assert other in s.tokens <==> Cancellable(s, other);
    }
  }

  lemma AdvanceKeepsTracked(s: State, b: BatchId, answer: Answer)
    requires Tracked(s) && Enabled(s, Advance(b, answer))
    ensures Tracked(Do(s, Advance(b, answer)))
  {
    forall other ensures TrackedOne(Do(s, Advance(b, answer)), other) {
      assert TrackedOne(s, b) && TrackedOne(s, other);
      AdvanceTracksOne(s, b, answer, other);
    }
  }

  lemma AdvanceTracksOne(s: State, b: BatchId, answer: Answer, other: BatchId)
    requires Enabled(s, Advance(b, answer)) && TrackedOne(s, b) && TrackedOne(s, other)
    ensures TrackedOne(Do(s, Advance(b, answer)), other)
  {
    if other == b {
      AdvanceKeepsTask(s.tasks[b], b in s.fired, answer);
      AdvanceObserved(s, b, answer);
    } else if other in s.tasks {
      AdvanceElsewhere(s, b, answer, other);
    } else {
      AdvanceLogs(s, b, answer, other);
    }
  }

  // A batch's steps are invisible to the others.
  lemma AdvanceElsewhere(s: State, b: BatchId, answer: Answer, other: BatchId)
    requires Enabled(s, Advance(b, answer)) && other in s.tasks && other != b && Observed(s, other)
    ensures Do(s, Advance(b, answer)).tasks[other] == s.tasks[other]
    ensures Observed(Do(s, Advance(b, answer)), other)
  {
    AdvanceLogs(s, b, answer, other);
  }

  lemma CallKeepsTracked(s: State, a: Action)
    requires Tracked(s) && Enabled(s, a) && !a.Advance?
    ensures Tracked(Do(s, a))
  {
    forall b ensures TrackedOne(Do(s, a), b) {
      assert TrackedOne(s, b);
    }
  }

  lemma CallKeepsTokens(s: State, a: Action)
    requires TokensExact(s) && Enabled(s, a) && !a.Advance?
    ensures TokensExact(Do(s, a))
  {
    var s' := Do(s, a);
    forall b ensures b in s'.tokens <==> Cancellable(s', b) {
      assert b in s.tokens <==> Cancellable(s, b);
    }
  }

  lemma {:induction false} RunKeepsInv(s: State, acts: seq<Action>)
    requires Inv(s) && Run(s, acts).Some?
    ensures Inv(Run(s, acts).value)
    decreases |acts|
  {
    if acts != [] {
      StepKeepsInv(s, acts[0]);
      RunKeepsInv(Do(s, acts[0]), acts[1..]);
    }
  }

  lemma {:induction false} RunConcat(s: State, acts: seq<Action>, more: seq<Action>)
    requires Run(s, acts).Some?
    ensures Run(s, acts + more) == Run(Run(s, acts).value, more)
    decreases |acts|
  {
    if acts == [] {
      assert acts + more == more;
    } else {
      assert (acts + more)[1..] == acts[1..] + more;
      RunConcat(Do(s, acts[0]), acts[1..], more);
    }
  }

  // The state after one more action.
  lemma Then(s: State, a: Action)
    requires Reachable(s) && Enabled(s, a)
    ensures Reachable(Do(s, a))
  {
    var acts :| Run(INIT, acts) == Some(s);
    RunConcat(INIT, acts, [a]);
    assert Run(Do(s, a), [a][1..]) == Some(Do(s, a));
  }

  lemma ReachableInv(s: State)
    requires Reachable(s)
    ensures Inv(s)
  {
    var acts :| Run(INIT, acts) == Some(s);
    RunKeepsInv(INIT, acts);
  }

  // ---------------------------------------------------------------------------
  // What every interleaving guarantees
  // ---------------------------------------------------------------------------

  // A batch's events are progress reports for a prefix of its files, in order, numbered from 1
  // and never above the total, then, once it is through, exactly one VerifyComplete; without a
  // fired token the prefix is everything.
  lemma BatchEvents(s: State, b: BatchId)
    requires Reachable(s) && b in s.tasks
    ensures var t := s.tasks[b];
            && |t.outcomes| <= |t.files|
            && (forall i :: 0 <= i < |t.outcomes| ==> t.outcomes[i].file == t.files[i])
            && EventsOf(s.log, b) == Announcements(b, t)
            && (Announced(t) && b !in s.fired ==> |t.outcomes| == |t.files|)
            && (forall e :: e in EventsOf(s.log, b) && e.VerifyProgress? ==> 1 <= e.filesDone <= e.filesTotal)
    ensures |EventsOf(s.log, b)| == |s.tasks[b].outcomes| + (if Announced(s.tasks[b]) then 1 else 0)
    ensures forall i :: 0 <= i < |s.tasks[b].outcomes| ==>
              var e, total := EventsOf(s.log, b)[i], |s.tasks[b].files|;
              && e.VerifyProgress? && e.batch == b && e.outcome == s.tasks[b].outcomes[i]
              && e.filesDone == (if i < 4294967295 then i + 1 else 4294967295)
              && e.filesTotal == (if total <= 4294967295 then total else 4294967295)
  {
    ReachableInv(s);
    assert TrackedOne(s, b);
    CountsInRange(b, s.tasks[b]);
  }

  // The promised writes, one by one: as many as there are Computed outcomes, each with its own
  // file and hash, in the same order.
  lemma {:induction false} StoredByAt(b: BatchId, outcomes: seq<Outcome>, i: nat)
    requires i < |outcomes|
    ensures |StoredBy(b, outcomes[..i])| <= |StoredBy(b, outcomes)|
    ensures outcomes[i].Computed? ==>
              && |StoredBy(b, outcomes[..i])| < |StoredBy(b, outcomes)|
              && StoredBy(b, outcomes)[|StoredBy(b, outcomes[..i])|] == RepoWrite(b, outcomes[i].file, outcomes[i].hash)
    ensures |StoredBy(b, outcomes[..i + 1])| == |StoredBy(b, outcomes[..i])| + (if outcomes[i].Computed? then 1 else 0)
    decreases |outcomes|
  {
    var front := outcomes[..|outcomes| - 1];
    if i == |front| {
      assert outcomes[..i] == front && outcomes[..i + 1] == outcomes;
    } else {
      StoredByAt(b, front, i);
      assert outcomes[..i] == front[..i] && outcomes[..i + 1] == front[..i + 1];
    }
  }

  lemma CountsInRange(b: BatchId, t: Task)
    requires |t.outcomes| <= |t.files|
    ensures forall e :: e in Announcements(b, t) && e.VerifyProgress? ==> 1 <= e.filesDone <= e.filesTotal
  {
    var reports := Reports(b, |t.files|, t.outcomes);
    forall e | e in Announcements(b, t) && e.VerifyProgress? ensures 1 <= e.filesDone <= e.filesTotal {
      assert e in reports;
      var i :| 0 <= i < |reports| && reports[i] == e;
    }
  }

  // Batches that were never started say nothing.
  lemma UnknownBatchSilent(s: State, b: BatchId)
    requires Reachable(s) && b !in s.tasks
    ensures EventsOf(s.log, b) == []
  {
    ReachableInv(s);
    assert TrackedOne(s, b);
  }

  // The hashes a batch reports as computed are exactly the writes it got through to the
  // repository, in order (one of them possibly not reported yet).
  lemma ComputedIffStored(s: State, b: BatchId)
    requires Reachable(s) && b in s.tasks
    ensures WritesOf(s.writes, b) == StoredBy(b, Settled(s.tasks[b]))
  {
    ReachableInv(s);
    assert TrackedOne(s, b);
  }

  // What the ports answered for a file, and what became of it: all three succeeded, or the first
  // failure decides.
  predicate Explains(heard: seq<Answer>, file: FileId, outcome: Outcome) {
    match outcome
    case Computed(f, h) => f == file && heard == [Found, Hashed(h), Done]
    case Failed(f, why) =>
      && f == file && heard != []
      && match why
         case NotMounted => heard == [Absent]
         case IoFailure => heard == [Found, Error]
         case RepoFailure =>
           heard == [Error] || (|heard| == 3 && heard[0] == Found && heard[1].Hashed? && heard[2] == Error)
  }

  // The answers heard so far fit the stage the task is in.
  predicate HeardInStage(t: Task) {
    match t.stage
    case LookingUp => t.heard == []
    case Hashing => t.heard == [Found]
    case Updating(h) => t.heard == [Found, Hashed(h)]
    case Reporting(outcome) => Explains(t.heard, Current(t), outcome)
    case _ => t.heard == []
  }

  ghost predicate AnswersKept(t: Task) {
    && |t.answers| == |t.outcomes| <= |t.files| && HeardInStage(t)
    && forall i :: 0 <= i < |t.outcomes| ==> Explains(t.answers[i], t.files[i], t.outcomes[i])
  }

  ghost predicate AllAnswersKept(s: State) {
    forall b :: b in s.tasks ==> AnswersKept(s.tasks[b])
  }

  lemma AdvanceKeepsAnswers(t: Task, fired: bool, answer: Answer)
    requires TaskInv(t) && AnswersKept(t) && FitsStage(t.stage, answer)
    ensures AnswersKept(NextTask(t, fired, answer))
  {
  }

  lemma StepKeepsAnswers(s: State, a: Action)
    requires Inv(s) && AllAnswersKept(s) && Enabled(s, a)
    ensures AllAnswersKept(Do(s, a))
  {
    if a.Advance? {
      assert TrackedOne(s, a.batch);
      AdvanceKeepsAnswers(s.tasks[a.batch], a.batch in s.fired, a.answer);
    }
  }

  lemma {:induction false} RunKeepsAnswers(s: State, acts: seq<Action>)
    requires Inv(s) && AllAnswersKept(s) && Run(s, acts).Some?
    ensures AllAnswersKept(Run(s, acts).value)
    decreases |acts|
  {
    if acts != [] {
      StepKeepsInv(s, acts[0]);
      StepKeepsAnswers(s, acts[0]);
      RunKeepsAnswers(Do(s, acts[0]), acts[1..]);
    }
  }

  // In every interleaving, the i-th file of a batch is reported as Computed(f, h) iff its lookup
  // found it, hashing gave h and the update went through; each failure has its own cause.
  lemma OutcomeIff(s: State, b: BatchId, i: nat)
    requires Reachable(s) && b in s.tasks && i < |s.tasks[b].outcomes|
    ensures |s.tasks[b].answers| == |s.tasks[b].outcomes| <= |s.tasks[b].files|
    ensures var outcome, heard, file := s.tasks[b].outcomes[i], s.tasks[b].answers[i], s.tasks[b].files[i];
            && (forall h :: outcome == Computed(file, h) <==> heard == [Found, Hashed(h), Done])
            && (outcome == Failed(file, NotMounted) <==> heard == [Absent])
            && (outcome == Failed(file, IoFailure) <==> heard == [Found, Error])
            && (outcome == Failed(file, RepoFailure) <==>
                  heard == [Error] || exists h :: heard == [Found, Hashed(h), Error])
  {
    ReachableAnswers(s, b);
    ExplainsIff(s.tasks[b].answers[i], s.tasks[b].files[i], s.tasks[b].outcomes[i]);
  }

  lemma ReachableAnswers(s: State, b: BatchId)
    requires Reachable(s) && b in s.tasks
    ensures AnswersKept(s.tasks[b])
  {
    var acts :| Run(INIT, acts) == Some(s);
    RunKeepsAnswers(INIT, acts);
  }

  lemma ExplainsIff(heard: seq<Answer>, file: FileId, outcome: Outcome)
    requires Explains(heard, file, outcome)
    ensures forall h :: outcome == Computed(file, h) <==> heard == [Found, Hashed(h), Done]
    ensures outcome == Failed(file, NotMounted) <==> heard == [Absent]
    ensures outcome == Failed(file, IoFailure) <==> heard == [Found, Error]
    ensures outcome == Failed(file, RepoFailure) <==> heard == [Error] || exists h :: heard == [Found, Hashed(h), Error]
  {
    if |heard| == 3 && heard[1].Hashed? {
      assert heard == [heard[0], Hashed(heard[1].hash), heard[2]];
    }
  }

  // `compute_one`: the stages of one file, stopping at the first failure.
  function FileDone(t: Task, lookup: Answer, hash: Answer, update: Answer): Task {
    var t1 := NextTask(t, false, lookup);
    if t1.stage.Reporting? then t1
    else
      var t2 := NextTask(t1, false, hash);
      if t2.stage.Reporting? then t2 else NextTask(t2, false, update)
  }

  // cancel_batch succeeds at most once for a batch, exactly while its task is there and not yet
  // cancelled, and then fires the token; otherwise it changes nothing.  A finished task leaves
  // no token behind.
  lemma CancelOnce(s: State, b: BatchId)
    requires Reachable(s)
    ensures Distinct(s.cancelled)
    ensures b in s.tokens <==> Cancellable(s, b)
    ensures !Cancellable(s, b) ==> Do(s, TakeToken(b)) == s
    ensures Cancellable(s, b) ==>
              var taken := Do(s, TakeToken(b));
              && taken.cancelled == s.cancelled + [b]
              && Enabled(taken, FireToken(b)) && b in Do(taken, FireToken(b)).fired
    ensures b in s.cancelled <==> b in s.firing || b in s.fired
  {
    ReachableInv(s);
  }

  // Files reported so far, plus the one in hand.
  function Committed(t: Task): nat {
    |t.outcomes| + (if MidFile(t) then 1 else 0)
  }

  lemma FiredKeepsCommitted(s: State, a: Action, b: BatchId)
    requires Enabled(s, a) && b in s.tasks && b in s.fired
    ensures b in Do(s, a).tasks && b in Do(s, a).fired
    ensures Do(s, a).tasks[b].files == s.tasks[b].files && Committed(Do(s, a).tasks[b]) == Committed(s.tasks[b])
  {
  }

  // Once the token has fired, the number of files the batch will ever report is settled: those
  // already reported and, exactly when a file is in hand, that one more.
  lemma {:induction false} CancelStopsBatch(s: State, more: seq<Action>, b: BatchId)
    requires b in s.tasks && b in s.fired && Run(s, more).Some?
    ensures var s' := Run(s, more).value;
            && b in s'.tasks
            && |s'.tasks[b].outcomes| <= Committed(s.tasks[b])
            && (Announced(s'.tasks[b]) ==> |s'.tasks[b].outcomes| == Committed(s.tasks[b]))
    decreases |more|
  {
    if more != [] {
      FiredKeepsCommitted(s, more[0], b);
      CancelStopsBatch(Do(s, more[0]), more[1..], b);
    }
  }

  // Steps a task still has to take, at most.
  function StepsLeft(t: Task): int {
    5 * (|t.files| - |t.outcomes|) +
    match t.stage
    case Checking => 3
    case LookingUp => 2
    case Hashing => 1
    case Updating(_) => 0
    case Reporting(_) => -1
    case Completing => 2
    case CleaningUp => 1
    case Exited => 0
  }

  lemma AdvanceShrinks(t: Task, fired: bool, answer: Answer)
    requires TaskInv(t) && !t.stage.Exited?
    ensures 0 <= StepsLeft(NextTask(t, fired, answer)) < StepsLeft(t)
  {
  }

  // A task is never blocked before it exits.
  lemma CanAdvanceIff(s: State, b: BatchId)
    ensures (exists answer :: Enabled(s, Advance(b, answer))) <==> b in s.tasks && !s.tasks[b].stage.Exited?
  {
    if b in s.tasks && !s.tasks[b].stage.Exited? {
      assert Enabled(s, Advance(b, Error));
    }
  }

  predicate IsTurn(a: Action, b: BatchId) {
    a.Advance? && a.batch == b
  }

  // The steps the task of this batch takes in a run.
  function Turns(acts: seq<Action>, b: BatchId): nat {
    if acts == [] then 0
    else (if IsTurn(acts[0], b) then 1 else 0) + Turns(acts[1..], b)
  }

  // A step of the system leaves every task alone but the one whose turn it is.
  lemma NotItsTurn(s: State, a: Action, b: BatchId)
    requires Enabled(s, a) && b in s.tasks && !IsTurn(a, b)
    ensures b in Do(s, a).tasks && Do(s, a).tasks[b] == s.tasks[b]
  {
  }

  lemma ItsTurn(s: State, answer: Answer, b: BatchId)
    requires Enabled(s, Advance(b, answer)) && TaskInv(s.tasks[b])
    ensures var s' := Do(s, Advance(b, answer));
            && b in s'.tasks && s'.tasks[b].files == s.tasks[b].files
            && StepsLeft(s'.tasks[b]) < StepsLeft(s.tasks[b])
  {
    AdvanceShrinks(s.tasks[b], b in s.fired, answer);
  }

  lemma StepsLeftRange(t: Task)
    requires TaskInv(t)
    ensures 0 <= StepsLeft(t) && (StepsLeft(t) == 0 ==> t.stage.Exited?)
  {
  }

  // Whatever the ports answer and whatever else goes on, each turn of a task brings it closer to
  // its end and nothing sets it back; given as many turns as it has steps left, it has exited.
  lemma {:induction false} TurnsAreBounded(s: State, more: seq<Action>, b: BatchId)
    requires Inv(s) && b in s.tasks && Run(s, more).Some?
    ensures var s' := Run(s, more).value;
            && b in s'.tasks && s'.tasks[b].files == s.tasks[b].files
            && 0 <= StepsLeft(s'.tasks[b]) <= StepsLeft(s.tasks[b]) - Turns(more, b)
            && (Turns(more, b) == StepsLeft(s.tasks[b]) ==> s'.tasks[b].stage.Exited?)
    decreases |more|
  {
    assert TrackedOne(s, b);
    if more == [] {
      StepsLeftRange(s.tasks[b]);
    } else {
      StepKeepsInv(s, more[0]);
      if IsTurn(more[0], b) {
        ItsTurn(s, more[0].answer, b);
      } else {
        NotItsTurn(s, more[0], b);
      }
      TurnsAreBounded(Do(s, more[0]), more[1..], b);
    }
  }

  // In s' the task has exited, and its last word was VerifyComplete.
  ghost predicate Finished(s: State, s': State, b: BatchId) {
    && b in s.tasks && b in s'.tasks && s'.tasks[b].stage.Exited?
    && EventsOf(s'.log, b) == Reports(b, |s.tasks[b].files|, s'.tasks[b].outcomes) + [VerifyComplete(b)]
  }

  // From every reachable state every task can run to its exit by its own steps alone, no more of
  // them than it has left, and its last event is then VerifyComplete.
  lemma TaskTerminates(s: State, b: BatchId) returns (more: seq<Action>)
    requires Reachable(s) && b in s.tasks
    ensures |more| <= StepsLeft(s.tasks[b]) && forall a :: a in more ==> a.Advance? && a.batch == b
    ensures Run(s, more).Some? && Finished(s, Run(s, more).value, b)
  {
    ReachableInv(s);
    more := RunToExit(s, b);
    TurnsAreBounded(s, more, b);
    assert Inv(Run(s, more).value) by { RunKeepsInv(s, more); }
    assert TrackedOne(Run(s, more).value, b);
  }

  lemma {:induction false} RunToExit(s: State, b: BatchId) returns (more: seq<Action>)
    requires Inv(s) && b in s.tasks
    ensures 0 <= |more| <= StepsLeft(s.tasks[b]) && forall a :: a in more ==> a.Advance? && a.batch == b
    ensures Run(s, more).Some? && b in Run(s, more).value.tasks && Run(s, more).value.tasks[b].stage.Exited?
    decreases StepsLeft(s.tasks[b])
  {
    var t := s.tasks[b];
    assert TrackedOne(s, b);
    if t.stage.Exited? {
      return [];
    }
    var a := Advance(b, Error);
    StepKeepsInv(s, a);
    assert TrackedOne(Do(s, a), b);
    AdvanceShrinks(t, b in s.fired, Error);
    var rest := RunToExit(Do(s, a), b);
    more := [a] + rest;
    assert more[1..] == rest;
  }

  // ---------------------------------------------------------------------------
  // What a batch is given
  // ---------------------------------------------------------------------------

  lemma StepKeepsFiles(s: State, a: Action, b: BatchId)
    requires Enabled(s, a)
    ensures b in s.tasks ==>
              b in Do(s, a).tasks && Do(s, a).tasks[b].files == s.tasks[b].files && !(a.StartBatch? && a.batch == b)
    ensures b !in s.tasks ==> (b in Do(s, a).tasks <==> a.StartBatch? && a.batch == b)
    ensures a.StartBatch? && a.batch == b ==> b in Do(s, a).tasks && Do(s, a).tasks[b].files == a.files
  {
  }

  // A batch works on the files it was started with, and is there iff it was started.
  lemma {:induction false} FilesAsStarted(s: State, acts: seq<Action>, b: BatchId)
    requires Run(s, acts).Some?
    ensures var s' := Run(s, acts).value;
            && (b in s.tasks ==> b in s'.tasks && s'.tasks[b].files == s.tasks[b].files)
            && (b in s'.tasks && b !in s.tasks ==> StartBatch(b, s'.tasks[b].files) in acts)
            && (forall files :: StartBatch(b, files) in acts ==>
                  b !in s.tasks && b in s'.tasks && s'.tasks[b].files == files)
    decreases |acts|
  {
    if acts != [] {
      StepKeepsFiles(s, acts[0], b);
      FilesAsStarted(Do(s, acts[0]), acts[1..], b);
      assert forall a :: a in acts <==> a == acts[0] || a in acts[1..];
    }
  }

  predicate AsksPort(stage: Stage) {
    stage.LookingUp? || stage.Hashing? || stage.Updating?
  }

  // The answers the ports give to a batch in a run.
  function Given(s: State, acts: seq<Action>, b: BatchId): seq<Answer>
    decreases |acts|
  {
    if acts == [] || !Enabled(s, acts[0]) then []
    else GivenIn(s, acts[0], b) + Given(Do(s, acts[0]), acts[1..], b)
  }

  function GivenIn(s: State, a: Action, b: BatchId): seq<Answer>
    requires Enabled(s, a)
  {
    if IsTurn(a, b) && AsksPort(s.tasks[b].stage) then [a.answer] else []
  }

  function Flat(answers: seq<seq<Answer>>): seq<Answer> {
    if answers == [] then [] else Flat(answers[..|answers| - 1]) + answers[|answers| - 1]
  }

  // All that the ports have answered a task so far.
  function Heard(t: Task): seq<Answer> {
    Flat(t.answers) + t.heard
  }

  lemma NextHears(t: Task, fired: bool, answer: Answer)
    ensures Heard(NextTask(t, fired, answer)) == Heard(t) + (if AsksPort(t.stage) then [answer] else [])
  {
    var t' := NextTask(t, fired, answer);
    if t.stage.Reporting? {
      assert t'.answers[..|t.answers|] == t.answers;
    } else if AsksPort(t.stage) {
      assert t'.heard == t.heard + [answer];
    }
  }

  // A task's record is what the ports answered it in the run, all of it and in order.
  lemma {:induction false} HeardIsGiven(s: State, acts: seq<Action>, b: BatchId)
    requires b in s.tasks && Run(s, acts).Some?
    ensures b in Run(s, acts).value.tasks
    ensures Heard(Run(s, acts).value.tasks[b]) == Heard(s.tasks[b]) + Given(s, acts, b)
    decreases |acts|
  {
    if acts != [] {
      StepHears(s, acts[0], b);
      HeardIsGiven(Do(s, acts[0]), acts[1..], b);
      assert Given(s, acts, b) == GivenIn(s, acts[0], b) + Given(Do(s, acts[0]), acts[1..], b);
    }
  }

  lemma StepHears(s: State, a: Action, b: BatchId)
    requires b in s.tasks && Enabled(s, a)
    ensures b in Do(s, a).tasks && Heard(Do(s, a).tasks[b]) == Heard(s.tasks[b]) + GivenIn(s, a, b)
  {
    if IsTurn(a, b) {
      NextHears(s.tasks[b], b in s.fired, a.answer);
    } else {
      NotItsTurn(s, a, b);
    }
  }

  // A new batch can be started at any time, and run to its end.
  lemma NewBatchRuns(s: State, b: BatchId, files: seq<FileId>) returns (more: seq<Action>)
    requires Reachable(s) && b !in s.tasks
    ensures Enabled(s, StartBatch(b, files))
    ensures Run(s, [StartBatch(b, files)] + more).Some?
    ensures Finished(Do(s, StartBatch(b, files)), Run(s, [StartBatch(b, files)] + more).value, b)
  {
    var a := StartBatch(b, files);
    Then(s, a);
    more := TaskTerminates(Do(s, a), b);
    assert ([a] + more)[1..] == more;
  }
}
