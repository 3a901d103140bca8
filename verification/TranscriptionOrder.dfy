/**
 Completed events come in enqueue order.  A job's Completed can be overtaken by Started, Failed
 and Cancelled of later jobs (`TranscriptionOvertaking`), never by another Completed.
 */
module TranscriptionOrder {
  import opened Prelude
  import opened Transcription
  import opened TranscriptionInvariants
  import opened TranscriptionTheorems

  ghost predicate Before(ids: seq<JobId>, x: JobId, y: JobId) {
    exists i, j :: 0 <= i < j < |ids| && ids[i] == x && ids[j] == y
  }

  ghost predicate CompletedAlong(log: seq<Event>, ids: seq<JobId>) {
    forall a, b :: 0 <= a < b < |log| && log[a].Completed? && log[b].Completed? ==> Before(ids, log[a].id, log[b].id)
  }

  // Every job completed so far was started before this one.
  ghost predicate CompletedBefore(log: seq<Event>, ids: seq<JobId>, id: JobId) {
    forall a :: 0 <= a < |log| && log[a].Completed? ==> Before(ids, log[a].id, id)
  }

  // The job the worker holds is the last one started; the one whose Completed is owed comes
  // after all those completed.
  ghost predicate Ordered(s: State) {
    && CompletedAlong(s.log, StartedIds(s.log))
    && (forall id :: Owed(s.writer, id) ==> CompletedBefore(s.log, StartedIds(s.log), id))
    && (HoldsStarted(s.worker) ==> EndsWith(StartedIds(s.log), s.worker.id))
  }

  predicate EndsWith(ids: seq<JobId>, id: JobId) {
    ids != [] && ids[|ids| - 1] == id
  }

  lemma BeforeGrows(ids: seq<JobId>, more: seq<JobId>, x: JobId, y: JobId)
    requires Before(ids, x, y)
    ensures Before(ids + more, x, y)
  {
    var i, j :| 0 <= i < j < |ids| && ids[i] == x && ids[j] == y;
    assert (ids + more)[i] == x && (ids + more)[j] == y;
  }

  lemma OrderGrows(log: seq<Event>, ids: seq<JobId>, more: seq<JobId>)
    ensures CompletedAlong(log, ids) ==> CompletedAlong(log, ids + more)
    ensures forall id :: CompletedBefore(log, ids, id) ==> CompletedBefore(log, ids + more, id)
  {
    forall x, y | Before(ids, x, y) ensures Before(ids + more, x, y) {
      BeforeGrows(ids, more, x, y);
    }
  }

  lemma OtherEvent(log: seq<Event>, ids: seq<JobId>, e: Event)
    requires !e.Completed?
    ensures CompletedAlong(log, ids) ==> CompletedAlong(log + [e], ids)
    ensures forall id :: CompletedBefore(log, ids, id) ==> CompletedBefore(log + [e], ids, id)
  {
  }

  lemma WorkerEmitsNoCompleted(s: State, w: WorkerAction)
    requires WorkerEnabled(s, w)
    ensures WorkerEmits(s, w).Some? ==> !WorkerEmits(s, w).value.Completed?
  {
  }

  lemma WorkerKeepsOrdered(s: State, w: WorkerAction)
    requires Ordered(s) && WorkerEnabled(s, w)
    ensures Ordered(DoWorker(s, w))
  {
    var ids := StartedIds(s.log);
    WorkerLog(s, w);
    WorkerHolds(s, w);
    WorkerEmitsNoCompleted(s, w);
    OrderGrows(s.log, ids, if w.EmitStarted? then [s.worker.id] else []);
    if WorkerEmits(s, w).Some? {
      OtherEvent(s.log, StartedIds(DoWorker(s, w).log), WorkerEmits(s, w).value);
    }
  }

  // A job about to be stored was started after every completed one.
  lemma CommitComesLast(s: State, id: JobId)
    requires Link(s) && Emissions(s) && Ordered(s) && s.worker.Waiting? && s.worker.id == id && id !in s.db.headers
    ensures CompletedBefore(s.log, StartedIds(s.log), id)
  {
    var ids := StartedIds(s.log);
    forall a | 0 <= a < |s.log| && s.log[a].Completed? ensures Before(ids, s.log[a].id, id) {
      var x := s.log[a].id;
      assert Completed(x) in s.log && EmissionsOf(s, x);
      InLog(s.log, Completed(x));
      var i :| 0 <= i < |ids| && ids[i] == x;
    }
  }

  lemma WriterKeepsOrdered(s: State, x: WriterAction)
    requires Inv(s) && Ordered(s) && WriterEnabled(s, x)
    ensures Ordered(DoWriter(s, x))
  {
    var s', ids := DoWriter(s, x), StartedIds(s.log);
    WriterFrame(s, x);
    WriterLog(s, x);
    assert CompletedAlong(s'.log, ids) by {
      if x.EmitCompleted? {
        assert Owed(s.writer, s.writer.id);
      }
    }
    forall id | Owed(s'.writer, id) ensures CompletedBefore(s'.log, ids, id) {
      WriterOwes(s, x, id);
      if x.Commit? && x.ok {
        CommitComesLast(s, id);
      } else {
        assert Owed(s.writer, id) && !x.EmitCompleted?;
      }
    }
  }

  lemma StepKeepsOrdered(s: State, a: Action)
    requires Inv(s) && Ordered(s) && Enabled(s, a)
    ensures Ordered(Do(s, a))
  {
    match a
    case Call(c) => CallerLeaves(s, c);
    case Work(w) => WorkerKeepsOrdered(s, w);
    case Write(x) => WriterKeepsOrdered(s, x);
  }

  lemma {:induction false} RunKeepsOrdered(s: State, acts: seq<Action>)
    requires Inv(s) && Ordered(s) && Run(s, acts).Some?
    ensures Ordered(Run(s, acts).value)
    decreases |acts|
  {
    if acts != [] {
      StepKeepsInv(s, acts[0]);
      StepKeepsOrdered(s, acts[0]);
      RunKeepsOrdered(Do(s, acts[0]), acts[1..]);
    }
  }

  lemma ReachableOrdered(s: State)
    requires Reachable(s)
    ensures Fifo(s) && CompletedAlong(s.log, StartedIds(s.log))
  {
    var start, acts :| Initial(start) && Run(start, acts) == Some(s);
    InitInv(start);
    RunKeepsOrdered(start, acts);
    ReachableInv(s);
  }

  // In every interleaving, of two Completed events the earlier one is for the job enqueued
  // earlier.
  lemma CompletedInEnqueueOrder(s: State)
    requires Reachable(s)
    ensures CompletedAlong(s.log, s.intake.accepted)
  {
    ReachableOrdered(s);
    var rest := Unstarted(s.worker) + s.queue;
    OrderGrows(s.log, StartedIds(s.log), rest);
    assert s.intake.accepted == StartedIds(s.log) + rest;
  }
}
