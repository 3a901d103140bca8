/**
 What interleaving can do: a job's Completed arriving after the next job's Started and Failed,
 since the writer answers the worker before it emits Completed; and a Start call being told a
 place that is not its own, since it reads the queue's length before it sends.
 `TranscriptionTheorems.FinishedHasTerminal` and `PlaceTold` say exactly when.
 */
module TranscriptionOvertaking {
  import opened Prelude
  import opened Transcription
  import opened TranscriptionInvariants

  // How many jobs the worker has taken off the queue.
  function Taken(s: State): nat {
    |StartedIds(s.log)| + |Unstarted(s.worker)|
  }

  // A job past its length reading keeps the length it read until it is answered.
  ghost predicate ReadOrPast(i: Intake, id: JobId, n: nat) {
    && id in i.used && id !in i.tokenInserted
    && (id in i.lenRead ==> i.lenRead[id] == n) && (id in i.rejected ==> i.rejected[id] == n)
  }

  lemma {:induction false} ReadingStays(s: State, acts: seq<Action>, id: JobId, n: nat)
    requires ReadOrPast(s.intake, id, n) && Run(s, acts).Some?
    ensures ReadOrPast(Run(s, acts).value.intake, id, n)
    decreases |acts|
  {
    if acts != [] {
      var a := acts[0];
      match a {
        case Call(c) =>
        case Work(w) => WorkerFrame(s, w);
        case Write(x) => WriterFrame(s, x);
      }
      ReadingStays(Do(s, a), acts[1..], id, n);
    }
  }

  // The place a Start call is told, whatever happens between its length reading and its send:
  // its real place, plus the jobs the worker took off in between, minus those that got in; so it
  // is exact iff the length at the send is the length that was read.
  lemma PlaceTold(s: State, id: JobId, between: seq<Action>)
    requires Reachable(s) && id in s.intake.tokenInserted
    requires Run(Do(s, Call(ReadLen(id))), between).Some?
    requires var sending := Run(Do(s, Call(ReadLen(id))), between).value;
             id in sending.intake.lenRead && |sending.queue| < 32
    ensures var sending := Run(Do(s, Call(ReadLen(id))), between).value;
            var s' := Do(sending, Call(TrySend(id)));
            && s'.queue == sending.queue + [id]
            && id in s'.intake.returned && s'.intake.returned[id].Enqueued?
            && s'.intake.returned[id].position == |s'.queue| + (Taken(sending) - Taken(s))
                                                  - (|sending.intake.accepted| - |s.intake.accepted|)
            && (s'.intake.returned[id] == Enqueued(|s'.queue|) <==> |sending.queue| == |s.queue|)
  {
    ReadingCarried(s, id, between);
    Answer(Run(Do(s, Call(ReadLen(id))), between).value, id, |s.queue|);
  }

  // What a Start call carries from its length reading on, and how the queue moves meanwhile.
  lemma ReadingCarried(s: State, id: JobId, between: seq<Action>)
    requires Reachable(s) && id in s.intake.tokenInserted
    requires Run(Do(s, Call(ReadLen(id))), between).Some?
    ensures var sending := Run(Do(s, Call(ReadLen(id))), between).value;
            && Reachable(sending) && ReadOrPast(sending.intake, id, |s.queue|)
            && |s.queue| == |sending.queue| + (Taken(sending) - Taken(s))
                            - (|sending.intake.accepted| - |s.intake.accepted|)
  {
    var read := Do(s, Call(ReadLen(id)));
    var sending := Run(read, between).value;
    ReachableFifo(s);
    assert Reachable(sending) by {
      var _ := Then(s, Call(ReadLen(id)));
      ReachableOn(read, between);
    }
    ReachableFifo(sending);
    assert id in s.intake.used && id !in s.intake.rejected by { ReachableInv(s); }
    ReadingStays(read, between, id, |s.queue|);
    QueueBalance(s);
    QueueBalance(sending);
  }

  // The other answer: a rejected Start call says how many jobs it counted before it sent, while
  // the queue it failed on was full; so the count is right iff the queue was full when counted.
  lemma QueuedTold(s: State, id: JobId, between: seq<Action>, later: seq<Action>)
    requires Reachable(s) && id in s.intake.tokenInserted
    requires Run(Do(s, Call(ReadLen(id))), between).Some?
    requires var sending := Run(Do(s, Call(ReadLen(id))), between).value;
             && id in sending.intake.lenRead && |sending.queue| >= 32
             && Run(Do(sending, Call(TrySend(id))), later).Some?
             && id in Run(Do(sending, Call(TrySend(id))), later).value.intake.rejected
    ensures var sending := Run(Do(s, Call(ReadLen(id))), between).value;
            var s' := Do(Run(Do(sending, Call(TrySend(id))), later).value, Call(RemoveOnFull(id)));
            && |sending.queue| == 32
            && id in s'.intake.returned && s'.intake.returned[id].QueueFull?
            && s'.intake.returned[id].queued == 32 + (Taken(sending) - Taken(s))
                                                - (|sending.intake.accepted| - |s.intake.accepted|)
            && (s'.intake.returned[id].queued == 32 <==> |s.queue| == 32)
  {
    var sending := Run(Do(s, Call(ReadLen(id))), between).value;
    ReadingCarried(s, id, between);
    assert |sending.queue| <= QUEUE_DEPTH by { ReachableInv(sending); }
    RunOne(sending, Call(TrySend(id)));
    ReadingStays(sending, [Call(TrySend(id))], id, |s.queue|);
    ReadingStays(Do(sending, Call(TrySend(id))), later, id, |s.queue|);
  }

  lemma RunOne(s: State, a: Action)
    requires Enabled(s, a)
    ensures Run(s, [a]) == Some(Do(s, a))
  {
    assert [a][1..] == [];
  }

  lemma Answer(s: State, id: JobId, n: nat)
    requires ReadOrPast(s.intake, id, n) && id in s.intake.lenRead && |s.queue| < QUEUE_DEPTH
    ensures var s' := Do(s, Call(TrySend(id)));
            && s'.queue == s.queue + [id]
            && id in s'.intake.returned && s'.intake.returned[id] == Enqueued(n + 1)
  {
  }

  lemma ReachableFifo(s: State)
    requires Reachable(s)
    ensures Fifo(s)
  {
    ReachableInv(s);
  }

  lemma QueueBalance(s: State)
    requires Fifo(s)
    ensures |s.queue| == |s.intake.accepted| - Taken(s)
  {
  }

  lemma InitReachable()
    ensures Reachable(INIT)
  {
    assert Initial(INIT) && Run(INIT, []) == Some(INIT);
  }

  lemma FirstHasRead() returns (s: State)
    ensures Reachable(s) && s.queue == []
    ensures s.intake == Intake({1}, {}, map[1 := 0], map[], [], map[])
  {
    InitReachable();
    s := Then(INIT, Call(InsertToken(1)));
    s := Then(s, Call(ReadLen(1)));
  }

  lemma SecondHasSent() returns (s: State)
    ensures Reachable(s) && s.queue == [2]
    ensures s.intake == Intake({1, 2}, {}, map[1 := 0], map[], [2], map[2 := Enqueued(1)])
  {
    s := FirstHasRead();
    s := Then(s, Call(InsertToken(2)));
    s := Then(s, Call(ReadLen(2)));
    s := Then(s, Call(TrySend(2)));
  }

  // Two jobs in the queue, both told they are first: the second got in between the first one's
  // length reading and its send.
  lemma BothFirst() returns (s: State)
    ensures Reachable(s) && s.queue == [2, 1]
    ensures s.intake.returned == map[1 := Enqueued(1), 2 := Enqueued(1)]
  {
    s := SecondHasSent();
    s := Then(s, Call(TrySend(1)));
  }

  // A Start call nobody interleaves with is told its exact 1-based place in the queue.
  lemma Enqueue(s: State, id: JobId) returns (s': State)
    requires Reachable(s) && id !in s.intake.used && |s.queue| < QUEUE_DEPTH
    ensures Reachable(s')
    ensures s'.queue == s.queue + [id] && s'.log == s.log && s'.worker == s.worker && s'.writer == s.writer
    ensures s'.inbox == s.inbox && s'.reply == s.reply && s'.tokens.fired == s.tokens.fired
    ensures s'.intake.used == s.intake.used + {id} && s'.db == s.db && s'.seen == s.seen
    ensures s'.intake.returned == s.intake.returned[id := Enqueued(|s'.queue|)]
  {
    s' := Then(s, Call(InsertToken(id)));
    s' := Then(s', Call(ReadLen(id)));
    s' := Then(s', Call(TrySend(id)));
  }

  // Uninterrupted, the worker reports the jobs behind the one it starts, and that one.
  lemma Start(s: State) returns (s': State)
    requires Reachable(s) && s.worker.Idle? && s.queue != []
    ensures Reachable(s')
    ensures s'.worker == Resolving(s.queue[0]) && s'.queue == s.queue[1..]
    ensures s'.log == s.log + [Started(s.queue[0], |s.queue|)]
    ensures s'.writer == s.writer && s'.inbox == s.inbox && s'.reply == s.reply && s'.tokens == s.tokens && s'.db == s.db
    ensures s'.seen == s.seen
  {
    s' := Then(s, Work(Receive));
    s' := Then(s', Work(ReadQueueSize));
    s' := Then(s', Work(EmitStarted));
  }

  // Adapter success, hand-over and commit of an empty transcript, up to the writer's reply.
  lemma Store(s: State) returns (s': State)
    requires Reachable(s) && s.worker.Resolving? && s.worker.id !in s.tokens.fired
    requires s.writer.WIdle? && s.inbox == [] && s.reply.None?
    ensures Reachable(s')
    ensures s'.writer == WEmit(s.worker.id) && s'.worker == Waiting(s.worker.id) && s'.reply == Some(Inserted)
    ensures s'.log == s.log && s'.queue == s.queue && s'.inbox == []
    ensures s'.tokens == s.tokens && s'.db.headers == s.db.headers + {s.worker.id}
  {
    s' := Transcribes(s);
    s' := Then(s', Work(PreWriteCheck));
    s' := Then(s', Work(Submit));
    s' := Commits(s');
  }

  lemma Transcribes(s: State) returns (s': State)
    requires Reachable(s) && s.worker.Resolving?
    ensures Reachable(s') && s'.worker == Produced(s.worker.id, [])
    ensures s'.log == s.log && s'.queue == s.queue && s'.inbox == s.inbox && s'.reply == s.reply
    ensures s'.tokens == s.tokens && s'.db == s.db && s'.writer == s.writer
  {
    s' := Then(s, Work(ResolveBackend(true)));
    s' := Then(s', Work(AdapterOk([])));
    s' := Then(s', Work(Stamp([])));
  }

  lemma Commits(s: State) returns (s': State)
    requires Reachable(s) && s.worker.Waiting? && s.worker.id !in s.tokens.fired
    requires s.writer.WIdle? && s.inbox == [Command(s.worker.id, [])] && s.reply.None?
    ensures Reachable(s')
    ensures s'.writer == WEmit(s.worker.id) && s'.worker == s.worker && s'.reply == Some(Inserted)
    ensures s'.log == s.log && s'.queue == s.queue && s'.inbox == []
    ensures s'.tokens == s.tokens && s'.db.headers == s.db.headers + {s.worker.id}
  {
    s' := Then(s, Write(Begin(true)));
    s' := Then(s', Write(CheckAfterBegin));
    s' := Then(s', Write(InsertHeader(true)));
    s' := Then(s', Write(Commit(true)));
    s' := Then(s', Write(SendReply));
  }

  lemma TwoQueued() returns (s: State)
    ensures Reachable(s) && s.queue == [1, 2] && s.log == [] && s.tokens.fired == {}
    ensures s.worker.Idle? && s.writer.WIdle? && s.inbox == [] && s.reply.None?
  {
    InitReachable();
    s := Enqueue(INIT, 1);
    s := Enqueue(s, 2);
  }

  // Job 1 is stored and the worker has let go of it, but its Completed is still owed.
  lemma FirstOwed() returns (s: State)
    ensures Reachable(s) && s.queue == [2] && s.log == [Started(1, 2)]
    ensures s.worker.Idle? && s.writer == WEmit(1)
  {
    s := TwoQueued();
    s := Start(s);
    s := Store(s);
    s := Then(s, Work(TakeReply));
    s := Then(s, Work(RemoveToken));
  }

  lemma CompletedCanBeOvertaken() returns (s: State)
    ensures Reachable(s)
    ensures s.log == [Started(1, 2), Started(2, 1), Failed(2), Completed(1)]
  {
    s := FirstOwed();
    s := Start(s);
    s := Then(s, Work(ResolveBackend(false)));
    s := Then(s, Write(EmitCompleted));
  }
}
