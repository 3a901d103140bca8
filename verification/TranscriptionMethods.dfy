/**
 The sequential code of the transcription queue in its own form: Start and Cancel calls made of
 their atomic sections, with everybody else at work in between; the writer's insert transaction;
 and the stamping of segment ids.
 */
module TranscriptionMethods {
  import opened Prelude
  import opened Transcription
  import opened TranscriptionInvariants
  import opened TranscriptionTheorems

  datatype CallInFlight = StartCall(id: JobId) | CancelCall(id: JobId)

  // The steps only this call takes.
  predicate OwnStep(call: CallInFlight, a: Action) {
    match call
    case StartCall(id) => a in [Call(InsertToken(id)), Call(ReadLen(id)), Call(TrySend(id)), Call(RemoveOnFull(id))]
    case CancelCall(id) => a == Call(FireToken(id))
  }

  // A Start call stands where it stood, and a token taken out of the map is still unfired.
  ghost predicate Undisturbed(call: CallInFlight, s: State, s': State) {
    match call
    case StartCall(id) => id in s.intake.used ==> SameStage(s.intake, s'.intake, id)
    case CancelCall(id) => id in s.tokens.firing ==> id in s'.tokens.firing
  }

  ghost predicate SameStage(i: Intake, i': Intake, id: JobId) {
    && id in i'.used
    && (id in i.tokenInserted <==> id in i'.tokenInserted)
    && (id in i.lenRead <==> id in i'.lenRead) && (id in i.lenRead ==> i'.lenRead[id] == i.lenRead[id])
    && (id in i.rejected <==> id in i'.rejected) && (id in i.rejected ==> i'.rejected[id] == i.rejected[id])
  }

  lemma CallersDoNotDisturb(call: CallInFlight, s: State, c: CallerAction)
    requires CallerEnabled(s, c) && !OwnStep(call, Call(c))
    ensures Undisturbed(call, s, DoCaller(s, c))
  {
    if c.TrySend? && |s.queue| < QUEUE_DEPTH {
      assert DoCaller(s, c).tokens == s.tokens;
    }
  }

  lemma OthersDoNotDisturb(call: CallInFlight, s: State, a: Action)
    requires Enabled(s, a) && !OwnStep(call, a)
    ensures Undisturbed(call, s, Do(s, a))
  {
    match a
    case Call(c) => CallersDoNotDisturb(call, s, c);
    case Work(w) =>
      WorkerFrame(s, w);
      assert DoWorker(s, w).tokens.firing == s.tokens.firing;
    case Write(x) => WriterFrame(s, x);
  }

  lemma SendAccepts(s: State, id: JobId)
    requires Reachable(s) && id in s.intake.lenRead && |s.queue| < QUEUE_DEPTH
    ensures var s' := DoCaller(s, TrySend(id));
            id in s'.intake.accepted && s'.queue == s.queue + [id] && s'.tokens == s.tokens
            && s.intake.lenRead[id] <= QUEUE_DEPTH
            && s'.intake.returned == s.intake.returned[id := Enqueued(s.intake.lenRead[id] + 1)]
  {
    ReachableInv(s);
  }

  lemma SendRejects(s: State, id: JobId)
    requires Reachable(s) && id in s.intake.lenRead && |s.queue| >= QUEUE_DEPTH
    ensures var s' := DoCaller(s, TrySend(id));
            s'.intake.rejected == s.intake.rejected[id := s.intake.lenRead[id]] && s'.queue == s.queue
            && s'.tokens == s.tokens && s.intake.lenRead[id] <= QUEUE_DEPTH && id in s'.intake.used
  {
    ReachableInv(s);
  }

  lemma RemovalForgets(s: State, id: JobId)
    requires Reachable(s) && id in s.intake.rejected
    ensures var s' := DoCaller(s, RemoveOnFull(id));
            && id !in s'.intake.accepted && id !in s'.tokens.cancels && !Held(s', id)
            && s'.queue == s.queue && s'.tokens == s.tokens.(cancels := s.tokens.cancels - {id})
            && s'.intake.returned == s.intake.returned[id := QueueFull(s.intake.rejected[id])]
            && forall e :: e in s'.log ==> e.id != id
  {
    ReachableInv(s);
    StartingNotAccepted(s, id);
    ghost var s' := Then(s, Call(RemoveOnFull(id)));
    EventsAtAnyTime(s');
  }

  lemma TokenIsNew(s: State, id: JobId)
    requires Reachable(s) && id !in s.intake.used
    ensures s.tokens.cancels + {id} - {id} == s.tokens.cancels && |s.queue| <= QUEUE_DEPTH
  {
    ReachableInv(s);
  }

  // The shared state of callers, worker and writer; the source keeps a mutex around the token
  // map and a channel as the queue, and runs one section of a call at a time.
  class TranscriptionUseCase {
    var state: State

    constructor (earlier: set<nat>)
      requires 0 !in earlier
      ensures state == Init(earlier) && Reachable(state)
    {
      state := Init(earlier);
      assert Run(Init(earlier), []) == Some(Init(earlier));
    }

    method Step(a: Action)
      requires Reachable(state) && Enabled(state, a)
      modifies this
      ensures state == Do(old(state), a) && Reachable(state)
    {
      ghost var s' := Then(state, a);
      state := Do(state, a);
    }

    // Other callers, the worker and the writer take whatever steps of these they can.
    method Others(call: CallInFlight, acts: seq<Action>)
      requires Reachable(state)
      modifies this
      ensures Reachable(state) && Undisturbed(call, old(state), state)
      ensures acts == [] ==> state == old(state)
    {
      for i := 0 to |acts|
        invariant Reachable(state) && Undisturbed(call, old(state), state)
        invariant i == 0 ==> state == old(state)
      {
        if Enabled(state, acts[i]) && !OwnStep(call, acts[i]) {
          OthersDoNotDisturb(call, state, acts[i]);
          Step(acts[i]);
        }
      }
    }

    // The first two sections of a Start call.
    method Announce(id: JobId, first: seq<Action>) returns (queued: nat)
      requires Reachable(state) && id !in state.intake.used
      modifies this
      ensures Reachable(state) && id in state.intake.used
      ensures id in state.intake.lenRead && state.intake.lenRead[id] == queued
      ensures first == [] ==>
                && queued == |old(state.queue)| && state.queue == old(state.queue)
                && state.tokens == old(state.tokens.(cancels := state.tokens.cancels + {id}))
    {
      Step(Call(InsertToken(id)));
      Others(StartCall(id), first);
      queued := |state.queue|;
      Step(Call(ReadLen(id)));
    }

    // One whole Start call.  Whatever happens between its sections, it answers Enqueued iff the
    // job is accepted, and a rejected job leaves no token, no place and no event.  With nothing
    // in between, the place is exact and a rejection leaves no trace.
    method Start(id: JobId, first: seq<Action>, second: seq<Action>, third: seq<Action>) returns (r: Output)
      requires Reachable(state) && id !in state.intake.used
      modifies this
      ensures Reachable(state)
      ensures id in state.intake.returned && state.intake.returned[id] == r
      ensures r.Enqueued? <==> id in state.intake.accepted
      ensures r.Enqueued? ==> 1 <= r.position <= QUEUE_DEPTH + 1 && state.queue != []
                              && state.queue[|state.queue| - 1] == id
      ensures r.QueueFull? ==>
                && r.queued <= QUEUE_DEPTH && id !in state.tokens.cancels && !Held(state, id)
                && forall e :: e in state.log ==> e.id != id
      ensures first == second == third == [] ==>
                if |old(state.queue)| < QUEUE_DEPTH
                then r == Enqueued(|state.queue|) && state.queue == old(state.queue) + [id]
                     && state.tokens.cancels == old(state.tokens.cancels) + {id}
                else r == QueueFull(QUEUE_DEPTH) && state.queue == old(state.queue)
                     && state.tokens == old(state.tokens)
    {
      TokenIsNew(state, id);
      var queued := Announce(id, first);
      Others(StartCall(id), second);
      if |state.queue| < QUEUE_DEPTH {
        SendAccepts(state, id);
        Step(Call(TrySend(id)));
        return Enqueued(queued + 1);
      }
      SendRejects(state, id);
      Step(Call(TrySend(id)));
      Others(StartCall(id), third);
      RemovalForgets(state, id);
      Step(Call(RemoveOnFull(id)));
      return QueueFull(queued);
    }

    // One whole Cancel call.  It gets a token iff the job is held and nobody cancelled it yet;
    // the token is then fired when the call returns, and from there on the job can be stored iff
    // the writer's last look at the token is over.
    method Cancel(id: JobId, between: seq<Action>) returns (fired: bool)
      requires Reachable(state)
      modifies this
      ensures Reachable(state)
      ensures fired <==> old(Held(state, id) && id !in state.tokens.firing && id !in state.tokens.fired)
      ensures fired ==>
                && id in state.tokens.fired && id !in state.tokens.cancels
                && ((exists more :: Run(state, more).Some? && id in Run(state, more).value.db.headers)
                    <==> PastLastCheck(state, id))
      ensures !fired && between == [] ==> state == old(state)
    {
      ReachableInv(state);
      fired := id in state.tokens.cancels;
      Step(Call(TakeToken(id)));
      Others(CancelCall(id), between);
      if fired {
        Step(Call(FireToken(id)));
        ReachableInv(state);
        CancelWindow(state, id);
      }
    }
  }

  // What the writer meets during one insert: whether it sees the token fired after BEGIN and
  // before each segment, and which statements fail.
  datatype Weather = Weather(
    beginFails: bool, firedAfterBegin: bool, headerFails: bool,
    firedBefore: nat -> bool, rowFails: nat -> bool, commitFails: bool)

  // The first n segment ids are new to the table and to each other.
  predicate KeysFree(t: Tables, segments: seq<Segment>, n: nat)
    requires n <= |segments|
  {
    && (forall k :: 0 <= k < n ==> KeyFree(t, segments[k].id))
    && (forall j, k :: 0 <= j < k < n ==> segments[j].id != segments[k].id)
  }

  // All went well up to, not including, the token check before segment n.
  predicate Clear(weather: Weather, t: Tables, segments: seq<Segment>, n: nat)
    requires n <= |segments|
  {
    && !weather.beginFails && !weather.firedAfterBegin && !weather.headerFails
    && (forall k :: 0 <= k < n ==> !weather.firedBefore(k) && !weather.rowFails(k))
    && KeysFree(t, segments, n)
  }

  // The token check before segment n is reached, and finds the token fired.
  predicate CaughtBefore(weather: Weather, t: Tables, segments: seq<Segment>, n: nat)
    requires n <= |segments|
  {
    Clear(weather, t, segments, n) && weather.firedBefore(n)
  }

  class TranscriptStore {
    var tables: Tables

    constructor (tables: Tables)
      ensures this.tables == tables
    {
      this.tables := tables;
    }

    // All or nothing: the transcript is stored whole, or the tables are untouched; a token
    // seen fired at the first look that matters makes the reply Cancelled; a segment id that is
    // taken refuses the whole transcript.
    method Insert(id: JobId, segments: seq<Segment>, weather: Weather) returns (r: Reply)
      requires id !in tables.rows
      modifies this
      ensures r.Inserted? <==> Clear(weather, old(tables), segments, |segments|) && !weather.commitFails
      ensures r.Inserted? ==>
                && tables.headers == old(tables.headers) + {id} && tables.earlier == old(tables.earlier)
                && tables.rows == old(tables.rows)[id := segments]
      ensures !r.Inserted? ==> tables == old(tables)
      ensures old(Unique(tables)) ==> Unique(tables)
      ensures r.WriteCancelled? <==>
                (!weather.beginFails && weather.firedAfterBegin)
                || exists n :: 0 <= n < |segments| && CaughtBefore(weather, old(tables), segments, n)
    {
      if weather.beginFails {
        return WriteFailed;
      }
      if weather.firedAfterBegin {
        return WriteCancelled;
      }
      if weather.headerFails {
        return WriteFailed;
      }
      var tx := WithHeader(tables, id);
      for k := 0 to |segments|
        invariant tables == old(tables)
        invariant Clear(weather, tables, segments, k)
        invariant tx.headers == tables.headers + {id} && tx.earlier == tables.earlier
        invariant tx.rows == tables.rows[id := segments[..k]]
        invariant Unique(tables) ==> Unique(tx)
      {
        if weather.firedBefore(k) {
          assert CaughtBefore(weather, tables, segments, k);
          return WriteCancelled;
        }
        OpenTxFree(tables, id, segments, k, tx);
        if weather.rowFails(k) || !KeyFree(tx, segments[k].id) {
          assert forall n :: 0 <= n < |segments| && CaughtBefore(weather, tables, segments, n) ==> n <= k;
          return WriteFailed;
        }
        InsertedRow(tables, id, segments, k, tx);
        tx := WithRow(tx, id, segments[k]);
      }
      assert segments[..|segments|] == segments;
      if weather.commitFails {
        return WriteFailed;
      }
      tables := tx;
      return Inserted;
    }
  }

  // The next id is free in the open transaction iff neither the stored rows nor the segments
  // before it have it.
  lemma OpenTxFree(t: Tables, id: JobId, segments: seq<Segment>, k: nat, tx: Tables)
    requires k < |segments| && id !in t.rows
    requires tx.rows == t.rows[id := segments[..k]] && tx.earlier == t.earlier
    ensures KeyFree(tx, segments[k].id) <==>
            KeyFree(t, segments[k].id) && forall j :: 0 <= j < k ==> segments[j].id != segments[k].id
  {
    assert forall j :: j in t.rows ==> tx.rows[j] == t.rows[j];
    if KeyFree(tx, segments[k].id) {
      assert forall j :: 0 <= j < k ==> tx.rows[id][j].id == segments[j].id;
    }
  }

  lemma InsertedRow(t: Tables, id: JobId, segments: seq<Segment>, k: nat, tx: Tables)
    requires k < |segments| && tx.rows == t.rows[id := segments[..k]] && KeyFree(tx, segments[k].id)
    ensures WithRow(tx, id, segments[k]).rows == t.rows[id := segments[..k + 1]]
    ensures Unique(tx) ==> Unique(WithRow(tx, id, segments[k]))
  {
    assert segments[..k] + [segments[k]] == segments[..k + 1];
    if Unique(tx) {
      AddedRowUnique(tx, id, segments[k]);
    }
  }

  // The loop over the segments stamps them as the protocol step does; `minted` holds the id each
  // place would get, and only those of nil places are used.
  method StampSegments(segments: array<Segment>, minted: seq<nat>, ghost seen: set<nat>)
    requires |minted| == segments.Length && Fresh(seen, minted) && IdsOf(segments[..]) <= seen
    modifies segments
    ensures segments[..] == Stamped(old(segments[..]), minted)
    ensures StampOf(old(segments[..]), segments[..])
  {
    for i := 0 to segments.Length
      invariant forall k :: i <= k < segments.Length ==> segments[k] == old(segments[k])
      invariant forall k :: 0 <= k < i ==> segments[k] == Stamped(old(segments[..]), minted)[k]
    {
      if segments[i].id == 0 {
        segments[i] := segments[i].(id := minted[i]);
      }
    }
    StampedIsStampOf(seen, old(segments[..]), minted);
  }
}
