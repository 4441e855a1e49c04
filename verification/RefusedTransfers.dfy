// Transfers that go wrong: one that is refused a place on disk, or whose chunk is not written, sends
// nothing more.

module RefusedTransfers {
  import opened Basics
  import opened DataChannel
  import opened FileStore
  import opened FileReceiver
  import opened FileTransfer
  import opened FileTermination

  // The transfer waits for its place, has one, or is rejected; what is rejected has no call out and
  // nothing queued that could run.
  predicate Placed(t: Transfer) {
    (t.path.Some? || Starting(t) || t.call.StartReply? || t.rejected) && (t.rejected ==> t.call.NoCall?)
  }

  predicate AllPlaced(r: Renderer) { forall id :: id in r.transfers ==> Placed(r.transfers[id]) }

  lemma OnePlaced(r: Renderer, z: Renderer, id: string)
    requires AllPlaced(r) && id in z.transfers && Placed(z.transfers[id])
    requires z.transfers == r.transfers[id := z.transfers[id]]
    ensures AllPlaced(z)
  {
  }

  lemma RejectIsPlaced(r: Renderer, id: string)
    requires id in r.transfers
    ensures var z := Reject(r, id);
      id in z.transfers && Placed(z.transfers[id]) && z.transfers == r.transfers[id := z.transfers[id]]
  {
  }

  lemma StartReplyIsPlaced(r: Renderer, id: string)
    requires AllPlaced(r) && id in r.transfers && r.transfers[id].call.StartReply?
    ensures AllPlaced(FileReceiver.StartReplied(r, id))
  {
    RejectIsPlaced(r, id);
    OnePlaced(r, FileReceiver.StartReplied(r, id), id);
  }

  lemma TaskIsPlaced(r: Renderer, id: string)
    requires AllPlaced(r) && TaskReady(r, id)
    ensures AllPlaced(RunTask(r, id))
  {
    RejectIsPlaced(r, id);
    assert Placed(r.transfers[id]);
    OnePlaced(r, RunTask(r, id), id);
  }

  lemma AppendReplyIsPlaced(r: Renderer, id: string)
    requires AllPlaced(r) && id in r.transfers && r.transfers[id].call.AppendReply?
    ensures AllPlaced(FileReceiver.AppendReplied(r, id))
  {
    RejectIsPlaced(r, id);
    assert Placed(r.transfers[id]);
    OnePlaced(r, FileReceiver.AppendReplied(r, id), id);
  }

  // Steps that leave path, call and rejection of every transfer as they were.
  predicate SamePlaces(r: Renderer, z: Renderer) {
    forall id :: id in z.transfers ==>
      if id in r.transfers
      then z.transfers[id].path == r.transfers[id].path && z.transfers[id].call == r.transfers[id].call
           && z.transfers[id].rejected == r.transfers[id].rejected
      else Placed(z.transfers[id])
  }

  lemma SameStayPlaced(r: Renderer, z: Renderer)
    requires AllPlaced(r) && SamePlaces(r, z)
    ensures AllPlaced(z)
  {
    forall id | id in z.transfers
      ensures Placed(z.transfers[id])
    {
      assert id in r.transfers ==> Placed(r.transfers[id]);
    }
  }

  lemma ReceiptKeepsPlaces(r: Renderer, m: Message)
    requires m.FileStart? && m.transferId in r.transfers ==> m.transferId in r.registered
    ensures SamePlaces(r, Receive(r, m))
  {
  }

  lemma WaitKeepsPlaces(r: Renderer, id: string, k: nat)
    requires WaiterReady(r, id, k)
    ensures SamePlaces(r, FinishWaiting(r, id, k))
  {
  }

  lemma TimeOutKeepsPlaces(r: Renderer, id: string)
    requires TimerDue(r, id)
    ensures SamePlaces(r, TimeOut(r, id))
  {
  }

  lemma OtherKeepsPlaces(s: System, e: Event)
    requires Enabled(s, e) && (e.QueueAwaited? || e.TimerFires? || e.ChannelCloses? || e.Tick?)
    ensures SamePlaces(s.r, ApplyRenderer(s, e))
  {
    if e.QueueAwaited? {
      WaitKeepsPlaces(s.r, e.id, e.k);
    } else if e.TimerFires? {
      TimeOutKeepsPlaces(s.r, e.id);
    }
  }

  // The main process moves a call on that is out; it never makes one.
  predicate CallsMoveOn(r: Renderer, z: Renderer) {
    z.transfers.Keys == r.transfers.Keys
    && forall id :: id in r.transfers ==>
         z.transfers[id] == r.transfers[id].(call := z.transfers[id].call)
         && (r.transfers[id].call.NoCall? ==> z.transfers[id].call.NoCall?)
         && (Starting(r.transfers[id]) || r.transfers[id].call.StartReply?
             ==> Starting(z.transfers[id]) || z.transfers[id].call.StartReply?)
  }

  lemma MovedStayPlaced(r: Renderer, z: Renderer)
    requires AllPlaced(r) && CallsMoveOn(r, z)
    ensures AllPlaced(z)
  {
    forall id | id in z.transfers
      ensures Placed(z.transfers[id])
    {
      assert Placed(r.transfers[id]);
    }
  }

  lemma CallMovesOn(s: System, id: string, call: Call)
    requires id in s.r.transfers && !s.r.transfers[id].call.NoCall?
    requires Starting(s.r.transfers[id]) || s.r.transfers[id].call.StartReply?
             ==> call.StartSent? || call.StartAllocating? || call.StartReply?
    ensures CallsMoveOn(s.r, SetCall(s, id, call).r)
  {
  }

  lemma MainMovesCallsOn(s: System, e: Event)
    requires Enabled(s, e) && AtMain(e)
    ensures CallsMoveOn(s.r, ApplyMain(s, e).r)
  {
    if e.MainStart? {
      CallMovesOn(s, e.id, StartAllocating);
      CallMovesOn(s, e.id, StartReply(None));
    } else if e.MainAllocated? {
      CallMovesOn(s, e.id, StartReply(e.place));
    } else if e.MainAppend? {
      AppendMovesOn(s, e.id);
    } else if e.MainWritten? {
      CallMovesOn(s, e.id, AppendReply(s.r.transfers[e.id].call.index, s.r.transfers[e.id].call.chunk, e.ok));
    } else {
      FewerCalls(s, e);
    }
  }

  lemma AppendMovesOn(s: System, id: string)
    requires Enabled(s, MainAppend(id))
    ensures CallsMoveOn(s.r, BeginAppend(s, id).r)
  {
    AppendFootprint(s, id);
  }

  lemma EventKeepsPlaces(s: System, e: Event)
    requires AllPlaced(s.r) && Enabled(s, e)
    ensures AllPlaced(Apply(s, e).r)
  {
    if AtMain(e) {
      MainMovesCallsOn(s, e);
      MovedStayPlaced(s.r, ApplyMain(s, e).r);
    } else if e.Deliver? {
      if Sanitize(e.m).Some? {
        ReceiptKeepsPlaces(s.r, Sanitize(e.m).value);
        SameStayPlaced(s.r, DeliverTo(s.r, e.m));
      }
    } else if e.QueueAwaited? || e.TimerFires? || e.ChannelCloses? || e.Tick? {
      OtherKeepsPlaces(s, e);
      SameStayPlaced(s.r, ApplyRenderer(s, e));
    } else {
      QueueEventKeepsPlaces(s, e);
    }
  }

  lemma QueueEventKeepsPlaces(s: System, e: Event)
    requires AllPlaced(s.r) && Enabled(s, e) && (e.StartReplied? || e.TaskStarts? || e.AppendReplied?)
    ensures AllPlaced(ApplyRenderer(s, e))
  {
    match e
    case StartReplied(id) => StartReplyIsPlaced(s.r, id);
    case TaskStarts(id) => TaskIsPlaced(s.r, id);
    case AppendReplied(id) => AppendReplyIsPlaced(s.r, id);
  }

  lemma {:induction false} PlacedAlways(disk: Files, events: seq<Event>)
    requires Possible(Initial(disk), events)
    ensures AllPlaced(After(Initial(disk), events).r)
  {
    if events != [] {
      var front := events[..|events| - 1];
      PlacedAlways(disk, front);
      EventKeepsPlaces(After(Initial(disk), front), events[|events| - 1]);
    }
  }

  /** In every run, whatever messages arrive: a transfer sends chunks to the main process only after that
      gave it a place; and a transfer one of whose calls failed has left the map and never sends again. */
  lemma ChunksHaveAPlace(disk: Files, events: seq<Event>, id: string)
    requires Possible(Initial(disk), events) && id in After(Initial(disk), events).r.transfers
    ensures var s := After(Initial(disk), events);
      var t := s.r.transfers[id];
      && (Appending(t.call) ==> t.path.Some? && !t.rejected)
      && (t.rejected ==> t.call.NoCall? && id !in s.r.registered && !Enabled(s, TaskStarts(id)))
  {
    PlacedAlways(disk, events);
    BoundedAlways(disk, events);
    PlacedMeans(After(Initial(disk), events), id);
  }

  lemma PlacedMeans(s: System, id: string)
    requires AllPlaced(s.r) && Bounded(s.r) && id in s.r.transfers
    ensures var t := s.r.transfers[id];
      && (Appending(t.call) ==> t.path.Some? && !t.rejected)
      && (t.rejected ==> t.call.NoCall? && id !in s.r.registered && !Enabled(s, TaskStarts(id)))
  {
    assert Placed(s.r.transfers[id]);
  }

  /** A refusal of either call ends the transfer: its queue is rejected, it is out of the map, and if it was
      still registered it has failed and one abort call is sent. */
  lemma RefusalEndsTransfer(s: System, id: string)
    requires Bounded(s.r) && id in s.r.transfers
    requires s.r.transfers[id].call == StartReply(None) || (s.r.transfers[id].call.AppendReply? && !s.r.transfers[id].call.ok)
    ensures var e := if s.r.transfers[id].call.StartReply? then FileTransfer.StartReplied(id) else FileTransfer.AppendReplied(id);
      Enabled(s, e)
      && var z := Apply(s, e).r;
         id in z.transfers && z.transfers[id].rejected && z.transfers[id].queue == [] && z.transfers[id].call.NoCall?
         && z.registered == s.r.registered - {id}
         && (id in s.r.registered ==> z.transfers[id].failed && z.abortCalls == s.r.abortCalls + multiset{id})
         && (id !in s.r.registered ==> z.abortCalls == s.r.abortCalls)
  {
    RejectionIs(s.r, id);
  }

  lemma RejectionIs(r: Renderer, id: string)
    requires Bounded(r) && id in r.transfers
    ensures var z := Reject(r, id);
      id in z.transfers && z.transfers[id].rejected && z.transfers[id].queue == [] && z.transfers[id].call.NoCall?
      && z.registered == r.registered - {id}
      && (id in r.registered ==> z.transfers[id].failed && z.abortCalls == r.abortCalls + multiset{id})
      && (id !in r.registered ==> z.abortCalls == r.abortCalls)
  {
  }

  /** A chunk that would go beyond the size the main process was told ends the session there: it is
      forgotten, its temporary file is to be removed, and the call is refused. */
  lemma OverflowEndsSession(s: System, id: string)
    requires Enabled(s, MainAppend(id))
    requires var c := s.r.transfers[id].call; AppendCheck(s.st, id, c.index, c.chunk).Overflow?
    ensures var c, z := s.r.transfers[id].call, Apply(s, MainAppend(id));
      var path := AppendCheck(s.st, id, c.index, c.chunk).path;
      z.st == s.st.(saves := s.st.saves - {Trim(id)}) && z.unlinks == s.unlinks + {path} && z.renames == s.renames
      && z.r == SetCall(s, id, AppendReply(c.index, c.chunk, false)).r
  {
  }
}
