/**
 The queue always drains: without new Start or Cancel calls, some step of the callers, the
 worker or the writer is possible until everything rests, and only finitely many are.
 */
module TranscriptionLiveness {
  import opened Prelude
  import opened Transcription
  import opened TranscriptionInvariants
  import opened TranscriptionTheorems

  // Steps the system takes by itself; the others are new calls, progress reports and shutdown.
  predicate Internal(a: Action) {
    match a
    case Call(c) => !c.InsertToken? && !c.TakeToken?
    case Work(w) => !w.EmitProgress?
    case Write(x) => !x.Shutdown?
  }

  function WorkerLeft(w: Worker): nat {
    match w
    case Idle => 0
    case Dequeued(_) => 10
    case Sized(_, _) => 9
    case Resolving(_) => 8
    case Transcribing(_) => 7
    case Transcribed(_, _) => 6
    case Produced(_, _) => 5
    case Submitting(_, _) => 4
    case Waiting(_) => 3
    case Removing(_) => 1
  }

  // Steps left before the writer, and the commands behind it, are done.
  function WriterLeft(s: State): int {
    (if s.inbox == [] then 0 else 2 * |s.inbox[0].segments| + 6) +
    match s.writer
    case WIdle => 0
    case WStopped => 0
    case WBegun(_, segments) => 2 * |segments| + 5
    case WHeader(_, segments) => 2 * |segments| + 4
    case WCheck(_, segments, k, _) => 2 * (|segments| - k) + 3
    case WInsert(_, segments, k, _) => 2 * (|segments| - k) + 2
    case WReply(_, _) => 2
    case WEmit(_) => 1
  }

  function QueueLeft(s: State): nat {
    IntakeLeft(s.intake) + |s.tokens.firing| + 11 * |s.queue| + WorkerLeft(s.worker)
  }

  predicate Less(s': State, s: State) {
    QueueLeft(s') < QueueLeft(s) || (QueueLeft(s') == QueueLeft(s) && 0 <= WriterLeft(s') < WriterLeft(s))
  }

  // Start calls in flight, by the steps they still have to take.
  function IntakeLeft(i: Intake): nat {
    13 * |i.tokenInserted| + 12 * |i.lenRead.Keys| + |i.rejected.Keys|
  }

  lemma CallerStepShrinks(s: State, c: CallerAction)
    requires Stages(s.intake) && CallerEnabled(s, c) && Internal(Call(c))
    ensures Less(DoCaller(s, c), s)
  {
    var s' := DoCaller(s, c);
    assert s'.worker == s.worker;
    IntakeShrinks(s, c);
  }

  lemma IntakeShrinks(s: State, c: CallerAction)
    requires Stages(s.intake) && CallerEnabled(s, c) && Internal(Call(c))
    ensures var s' := DoCaller(s, c);
            IntakeLeft(s'.intake) + |s'.tokens.firing| + 11 * |s'.queue|
            < IntakeLeft(s.intake) + |s.tokens.firing| + 11 * |s.queue|
  {
    match c
    case ReadLen(id) => LenReadShrinks(s.intake, id, |s.queue|);
    case TrySend(id) =>
      AcceptShrinks(s.intake, id);
      RejectShrinks(s.intake, id, s.intake.lenRead[id]);
    case RemoveOnFull(id) =>
      assert DoCaller(s, c).intake.rejected.Keys == s.intake.rejected.Keys - {id};
    case FireToken(id) =>
  }

  lemma LenReadShrinks(i: Intake, id: JobId, n: nat)
    requires Stages(i) && id in i.tokenInserted
    ensures IntakeLeft(i.(tokenInserted := i.tokenInserted - {id}, lenRead := i.lenRead[id := n])) == IntakeLeft(i) - 1
  {
    assert i.lenRead[id := n].Keys == i.lenRead.Keys + {id};
  }

  lemma AcceptShrinks(i: Intake, id: JobId)
    requires id in i.lenRead
    ensures IntakeLeft(Accept(i, id)) == IntakeLeft(i) - 12
  {
    assert (i.lenRead - {id}).Keys == i.lenRead.Keys - {id};
  }

  lemma RejectShrinks(i: Intake, id: JobId, n: nat)
    requires id in i.lenRead && id !in i.rejected
    ensures IntakeLeft(i.(lenRead := i.lenRead - {id}, rejected := i.rejected[id := n])) == IntakeLeft(i) - 11
  {
    assert (i.lenRead - {id}).Keys == i.lenRead.Keys - {id};
    assert i.rejected[id := n].Keys == i.rejected.Keys + {id};
  }

  lemma WorkerStepShrinks(s: State, w: WorkerAction)
    requires WorkerEnabled(s, w) && Internal(Work(w))
    ensures Less(DoWorker(s, w), s)
  {
    WorkerFrame(s, w);
    assert DoWorker(s, w).tokens.firing == s.tokens.firing;
  }

  // All of the writer's state that its progress depends on.
  predicate WriterInRange(s: State) {
    && |s.inbox| <= 1
    && (s.writer.WCheck? ==> s.writer.k <= |s.writer.segments|)
    && (s.writer.WInsert? ==> s.writer.k < |s.writer.segments|)
  }

  lemma WriterLeftFalls(s: State, x: WriterAction)
    requires WriterInRange(s) && WriterEnabled(s, x) && !x.Shutdown?
    ensures 0 <= WriterLeft(DoWriter(s, x)) < WriterLeft(s)
  {
  }

  lemma WriterStepShrinks(s: State, x: WriterAction)
    requires WriterInRange(s) && WriterEnabled(s, x) && Internal(Write(x))
    ensures Less(DoWriter(s, x), s)
  {
    WriterFrame(s, x);
    WriterLeftFalls(s, x);
  }

  // Every internal step brings the system strictly closer to rest, in a well-founded order.
  lemma StepShrinks(s: State, a: Action)
    requires Inv(s) && Enabled(s, a) && Internal(a)
    ensures Less(Do(s, a), s)
  {
    match a
    case Call(c) => CallerStepShrinks(s, c);
    case Work(w) => WorkerStepShrinks(s, w);
    case Write(x) => WriterStepShrinks(s, x);
  }

  // No deadlock: unless all is at rest, an internal step is possible.
  lemma NeverStuck(s: State) returns (a: Action)
    requires Inv(s) && !Quiescent(s)
    ensures Internal(a) && Enabled(s, a)
  {
    if s.intake.tokenInserted != {} {
      var id :| id in s.intake.tokenInserted;
      return Call(ReadLen(id));
    } else if id :| id in s.intake.lenRead {
      return Call(TrySend(id));
    } else if id :| id in s.intake.rejected {
      return Call(RemoveOnFull(id));
    } else if id :| id in s.tokens.firing {
      return Call(FireToken(id));
    }
    assert s.intake.lenRead == map[] && s.intake.rejected == map[] && s.tokens.firing == {};
    match s.writer {
      case WBegun(_, _) => return Write(CheckAfterBegin);
      case WHeader(_, _) => return Write(InsertHeader(true));
      case WCheck(_, segments, k, _) => return Write(if k < |segments| then CheckBeforeSegment else Commit(true));
      case WInsert(_, _, _, _) => return Write(InsertSegment(false));
      case WReply(_, _) => return Write(SendReply);
      case WEmit(_) => return Write(EmitCompleted);
      case WIdle =>
      case WStopped =>
    }
    a := WorkerNotStuck(s);
  }

  // Ids can always be minted: the numbers above all those seen.
  lemma FreshExist(seen: set<nat>, n: nat) returns (minted: seq<nat>)
    ensures |minted| == n && Fresh(seen, minted)
  {
    var top := UpperBound(seen);
    minted := seq(n, i => top + 1 + i);
  }

  lemma {:induction false} UpperBound(seen: set<nat>) returns (top: nat)
    ensures forall x :: x in seen ==> x <= top
  {
    if x :| x in seen {
      var rest := UpperBound(seen - {x});
      assert forall y :: y in seen ==> y == x || y in seen - {x};
      top := if rest < x then x else rest;
    } else {
      top := 0;
    }
  }

  lemma WorkerNotStuck(s: State) returns (a: Action)
    requires Link(s) && (s.writer.WIdle? || s.writer.WStopped?)
    requires !s.worker.Idle? || s.queue != [] || s.inbox != []
    ensures Internal(a) && Enabled(s, a)
  {
    match s.worker
    case Idle => return Work(Receive);
    case Dequeued(_) => return Work(ReadQueueSize);
    case Sized(_, _) => return Work(EmitStarted);
    case Resolving(_) => return Work(ResolveBackend(true));
    case Transcribing(_) => return Work(AdapterOk([]));
    case Transcribed(_, segments) =>
      var minted := FreshExist(s.seen, |segments|);
      return Work(Stamp(minted));
    case Produced(_, _) => return Work(PreWriteCheck);
    case Submitting(_, _) => return Work(Submit);
    case Removing(_) => return Work(RemoveToken);
    case Waiting(_) =>
      if s.inbox != [] {
        return Write(Begin(true));
      } else if s.reply.Some? {
        return Work(TakeReply);
      } else {
        return Work(ReplyLost);
      }
  }

  // From any reachable state the jobs drain to quiescence by internal steps alone.
  lemma {:induction false} Drains(s: State) returns (acts: seq<Action>)
    requires Inv(s)
    ensures forall a :: a in acts ==> Internal(a)
    ensures Run(s, acts).Some? && Quiescent(Run(s, acts).value)
    decreases QueueLeft(s), if WriterLeft(s) < 0 then 0 else WriterLeft(s)
  {
    if Quiescent(s) {
      return [];
    }
    var a := NeverStuck(s);
    StepKeepsInv(s, a);
    StepShrinks(s, a);
    var rest := Drains(Do(s, a));
    acts := [a] + rest;
    assert acts[1..] == rest;
  }

  // So every accepted job can still be settled, from wherever the system stands: it is started
  // and gets its one terminal event.
  lemma EveryJobSettles(s: State) returns (acts: seq<Action>)
    requires Reachable(s)
    ensures forall a :: a in acts ==> Internal(a)
    ensures Run(s, acts).Some?
    ensures forall id :: id in s.intake.accepted ==>
              var s' := Run(s, acts).value; id in StartedIds(s'.log) && Terminals(s'.log, id) == 1
  {
    ReachableInv(s);
    acts := Drains(s);
    ReachableOn(s, acts);
    ExactlyOneTerminal(Run(s, acts).value);
    AcceptedStays(s, acts);
  }

  lemma {:induction false} AcceptedStays(s: State, acts: seq<Action>)
    requires Run(s, acts).Some?
    ensures s.intake.accepted <= Run(s, acts).value.intake.accepted
    decreases |acts|
  {
    if acts != [] {
      AcceptedGrows(s, acts[0]);
      AcceptedStays(Do(s, acts[0]), acts[1..]);
    }
  }

  lemma AcceptedGrows(s: State, a: Action)
    requires Enabled(s, a)
    ensures s.intake.accepted <= Do(s, a).intake.accepted
  {
    match a
    case Call(c) =>
    case Work(w) => WorkerFrame(s, w);
    case Write(x) => WriterFrame(s, x);
  }

  // Nothing is assumed of callers, ports and shutdown: whatever they answer, and whenever they
  // come, is a step.
  lemma AnythingMayHappen(s: State, id: JobId, segments: seq<Segment>, flag: bool)
    ensures id !in s.intake.used ==> Enabled(s, Call(InsertToken(id)))
    ensures Enabled(s, Call(TakeToken(id)))
    ensures id in StartedIds(s.log) ==> Enabled(s, Work(EmitProgress(id)))
    ensures s.worker.Resolving? ==> Enabled(s, Work(ResolveBackend(flag)))
    ensures s.worker.Transcribing? ==> Enabled(s, Work(AdapterOk(segments))) && Enabled(s, Work(AdapterErr(flag)))
    ensures s.writer.WIdle? ==> Enabled(s, Write(Shutdown)) && (s.inbox != [] ==> Enabled(s, Write(Begin(flag))))
    ensures s.writer.WHeader? ==> Enabled(s, Write(InsertHeader(flag)))
    ensures s.writer.WInsert? && s.writer.k < |s.writer.segments| ==> Enabled(s, Write(InsertSegment(false)))
    ensures s.writer.WCheck? && s.writer.k == |s.writer.segments| ==> Enabled(s, Write(Commit(flag)))
  {
  }
}
