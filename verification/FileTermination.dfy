// The receiving renderer under any messages whatever: at most four transfers are registered,
// each with its timer armed, and none stays registered for ever.

module FileTermination {
  import opened Basics
  import opened DataChannel
  import opened FileStore
  import opened FileReceiver
  import opened FileTransfer
  import Base64

  // ----- a validated chunk is not empty

  lemma ValidatedChunkIsNotEmpty(data: string, maxLength: nat, maxBytes: nat)
    requires Base64.SanitizeBase64(data, maxLength, maxBytes).Some?
    ensures Base64.Atob(data).Some? && Base64.Atob(data).value != []
  {
    assert Base64.MatchesPattern(data);
    var n :| Base64.PaddingStartsAt(data, n);
    var t := Base64.StripPadding(data);
    assert |t| >= 2 && Base64.IsBase64Char(data[0]);
  }

  // ----- the invariant

  function ChunkOf(c: Call): seq<byte> {
    match c
    case AppendSent(_, chunk) => chunk
    case AppendWriting(_, chunk, _) => chunk
    case AppendReply(_, chunk, _) => chunk
    case _ => []
  }

  predicate Appending(c: Call) { c.AppendSent? || c.AppendWriting? || c.AppendReply? }

  // Every task still to run will count at least one byte, and never more than the size.
  ghost predicate Counting(t: Transfer) {
    && (forall i :: 0 <= i < |t.queue| ==>
          Base64.Atob(t.queue[i].data).Some? ==> Base64.Atob(t.queue[i].data).value != [])
    && (Appending(t.call) ==> ChunkOf(t.call) != [])
    && t.receivedBytes + |ChunkOf(t.call)| <= t.size
  }

  // A registered transfer waits for its timer, which was last armed when it counted a byte.
  predicate Waiting(t: Transfer, now: nat) {
    && !t.failed && !t.rejected
    && t.deadline.Some? && now <= t.deadline.value
    && t.deadline.value <= t.startedAt + INCOMING_FILE_TRANSFER_TIMEOUT_MS * (1 + t.receivedBytes)
  }

  ghost predicate TransferBounded(r: Renderer, id: string)
    requires id in r.transfers
  {
    var t := r.transfers[id];
    Counting(t) && t.startedAt <= r.now && (t.deadline.Some? ==> r.now <= t.deadline.value)
  }

  ghost predicate Bounded(r: Renderer) {
    && |r.registered| <= MAX_INCOMING_TRANSFERS
    && r.registered <= r.transfers.Keys
    && (forall id :: id in r.abortCalls || id in r.completeCalls ==> id in r.transfers)
    && (forall id :: id in r.transfers ==> TransferBounded(r, id))
    && (forall id :: id in r.registered ==> Waiting(r.transfers[id], r.now))
  }

  // Transfer id changes from one bounded state to another, and may leave the map.
  ghost predicate BoundedStep(r: Renderer, z: Renderer, id: string) {
    && id in r.transfers && id in z.transfers && z.now == r.now
    && z.transfers == r.transfers[id := z.transfers[id]]
    && (z.registered == r.registered || z.registered == r.registered - {id})
    && (forall x :: x in z.abortCalls || x in z.completeCalls ==> x in r.abortCalls || x in r.completeCalls || x == id)
    && TransferBounded(z, id)
    && (id in z.registered ==> Waiting(z.transfers[id], z.now))
    && (id in z.registered ==> RearmedByBytes(r.transfers[id], z.transfers[id]))
  }

  // The timer is as it was, or bytes were counted.
  predicate RearmedByBytes(t: Transfer, u: Transfer) {
    u.size == t.size && (u.deadline != t.deadline ==> t.receivedBytes < u.receivedBytes <= u.size)
  }

  lemma StepKeepsBounded(r: Renderer, z: Renderer, id: string)
    requires Bounded(r) && BoundedStep(r, z, id)
    ensures Bounded(z)
  {
    forall x | x in z.transfers
      ensures TransferBounded(z, x)
    {
      assert x == id || TransferBounded(r, x);
    }
    FewerRegistered(r.registered, id);
  }

  lemma FewerRegistered(s: set<string>, id: string)
    ensures |s - {id}| <= |s|
  {
    if id in s {
      assert |s - {id}| == |s| - 1;
    } else {
      assert s - {id} == s;
    }
  }

  lemma FailStep(r: Renderer, id: string)
    requires id in r.transfers && TransferBounded(r, id)
    requires id in r.registered ==> !r.transfers[id].failed
    ensures BoundedStep(r, Fail(r, id), id)
  {
    assert r.transfers == r.transfers[id := r.transfers[id]];
  }

  lemma RejectStep(r: Renderer, id: string)
    requires id in r.transfers && TransferBounded(r, id)
    requires id in r.registered ==> !r.transfers[id].failed
    ensures BoundedStep(r, Reject(r, id), id)
  {
  }

  lemma RunTaskStep(r: Renderer, id: string)
    requires Bounded(r) && TaskReady(r, id)
    ensures BoundedStep(r, RunTask(r, id), id)
  {
    assert TransferBounded(r, id);
    RejectStep(r, id);
  }

  lemma AppendRepliedStep(r: Renderer, id: string)
    requires Bounded(r) && id in r.transfers && r.transfers[id].call.AppendReply?
    ensures BoundedStep(r, FileReceiver.AppendReplied(r, id), id)
  {
    var t := r.transfers[id];
    assert TransferBounded(r, id);
    if t.call.ok {
      assert |t.call.chunk| >= 1;
      assert INCOMING_FILE_TRANSFER_TIMEOUT_MS * (1 + t.receivedBytes) + INCOMING_FILE_TRANSFER_TIMEOUT_MS
          <= INCOMING_FILE_TRANSFER_TIMEOUT_MS * (1 + t.receivedBytes + |t.call.chunk|);
    } else {
      RejectStep(r, id);
    }
  }

  lemma StartRepliedStep(r: Renderer, id: string)
    requires Bounded(r) && id in r.transfers && r.transfers[id].call.StartReply?
    ensures BoundedStep(r, FileReceiver.StartReplied(r, id), id)
  {
    assert TransferBounded(r, id);
    if r.transfers[id].call.path.None? {
      RejectStep(r, id);
    }
  }

  lemma FinishWaitingStep(r: Renderer, id: string, k: nat)
    requires Bounded(r) && WaiterReady(r, id, k)
    ensures BoundedStep(r, FinishWaiting(r, id, k), id)
  {
    var z := FinishWaiting(r, id, k);
    assert TransferBounded(r, id);
    WaitingFinished(r, id, k);
    assert z.transfers == r.transfers[id := z.transfers[id]];
  }

  lemma WaitingFinished(r: Renderer, id: string, k: nat)
    requires WaiterReady(r, id, k)
    ensures var t, u := r.transfers[id], FinishWaiting(r, id, k).transfers[id];
      u == t.(waiters := u.waiters, deadline := u.deadline) && (t.failed ==> u.deadline == t.deadline)
  {
  }

  lemma TimeOutStep(r: Renderer, id: string)
    requires Bounded(r) && TimerDue(r, id)
    ensures BoundedStep(r, TimeOut(r, id), id)
  {
    assert TransferBounded(r, id);
  }

  lemma BeginKeepsBounded(r: Renderer, id: string, name: string, size: int)
    requires Bounded(r) && (id in r.transfers ==> id in r.registered)
    ensures Bounded(Begin(r, id, name, size))
  {
    if Begin(r, id, name, size) != r {
      BeginKeepsCount(r, id, name, size);
      AddedIsBounded(r, id, name, Max(0, size));
    }
  }

  lemma AddedIsBounded(r: Renderer, id: string, name: string, size: nat)
    requires Bounded(r) && (id in r.transfers ==> id in r.registered) && |r.registered + {id}| <= MAX_INCOMING_TRANSFERS
    ensures Bounded(r.(transfers := r.transfers[id := NewTransfer(name, size, r.now)], registered := r.registered + {id}))
  {
    var z := r.(transfers := r.transfers[id := NewTransfer(name, size, r.now)], registered := r.registered + {id});
    forall x | x in z.transfers
      ensures TransferBounded(z, x)
    {
      assert x == id || TransferBounded(r, x);
    }
  }

  lemma BeginKeepsCount(r: Renderer, id: string, name: string, size: int)
    requires |r.registered| <= MAX_INCOMING_TRANSFERS
    ensures |Begin(r, id, name, size).registered| <= MAX_INCOMING_TRANSFERS
  {
    assert id !in r.registered ==> |r.registered + {id}| == |r.registered| + 1;
  }

  lemma InterruptKeepsBounded(r: Renderer)
    requires Bounded(r)
    ensures Bounded(Interrupt(r))
  {
    forall x | x in r.transfers
      ensures TransferBounded(Interrupt(r), x)
    {
      assert TransferBounded(r, x);
    }
  }

  lemma TickKeepsBounded(r: Renderer, ms: nat)
    requires Bounded(r) && MayPass(r, ms)
    ensures Bounded(r.(now := r.now + ms))
  {
    forall x | x in r.transfers
      ensures TransferBounded(r.(now := r.now + ms), x)
    {
      assert TransferBounded(r, x);
    }
  }

  lemma DeliverKeepsBounded(s: System, m: Message)
    requires Bounded(s.r) && Enabled(s, Deliver(m))
    ensures Bounded(DeliverTo(s.r, m))
  {
    var checked := Sanitize(m);
    if checked.Some? {
      var z := Receive(s.r, checked.value);
      match checked.value
      case FileStart(id, name, size) => BeginKeepsBounded(s.r, id, name, size);
      case FileChunk(id, index, data) => EnqueueKeepsBounded(s.r, id, index, data);
      case FileComplete(id, checksum) => AwaitKeepsBounded(s.r, id, checksum);
      case FileAbort(id) => FailKeepsBounded(s.r, id);
    }
  }

  lemma EnqueueKeepsBounded(r: Renderer, id: string, index: int, data: string)
    requires Bounded(r)
    requires Base64.SanitizeBase64(data, MAX_CHUNK_BASE64_LENGTH, MAX_CHUNK_BYTES).Some?
    ensures Bounded(Enqueue(r, id, index, data))
  {
    ValidatedChunkIsNotEmpty(data, MAX_CHUNK_BASE64_LENGTH, MAX_CHUNK_BYTES);
    if id in r.registered && index >= 0 {
      assert TransferBounded(r, id);
      StepKeepsBounded(r, Enqueue(r, id, index, data), id);
    }
  }

  lemma AwaitKeepsBounded(r: Renderer, id: string, checksum: string)
    requires Bounded(r)
    ensures Bounded(AwaitQueue(r, id, checksum))
  {
    if id in r.registered {
      assert TransferBounded(r, id);
      StepKeepsBounded(r, AwaitQueue(r, id, checksum), id);
    }
  }

  lemma FailKeepsBounded(r: Renderer, id: string)
    requires Bounded(r)
    ensures Bounded(Fail(r, id))
  {
    if id in r.registered {
      FailStep(r, id);
      StepKeepsBounded(r, Fail(r, id), id);
    }
  }

  lemma RendererKeepsBounded(s: System, e: Event)
    requires Bounded(s.r) && Enabled(s, e) && !AtMain(e)
    ensures Bounded(ApplyRenderer(s, e))
  {
    if e.Deliver? {
      DeliverKeepsBounded(s, e.m);
    } else if e.ChannelCloses? {
      InterruptKeepsBounded(s.r);
    } else if e.Tick? {
      TickKeepsBounded(s.r, e.ms);
    } else {
      TransferStep(s, e);
      StepKeepsBounded(s.r, ApplyRenderer(s, e), e.id);
    }
  }

  lemma TransferStep(s: System, e: Event)
    requires Bounded(s.r) && Enabled(s, e)
    requires e.StartReplied? || e.TaskStarts? || e.AppendReplied? || e.QueueAwaited? || e.TimerFires?
    ensures BoundedStep(s.r, ApplyRenderer(s, e), e.id)
  {
    match e
    case StartReplied(id) => StartRepliedStep(s.r, id);
    case TaskStarts(id) => RunTaskStep(s.r, id);
    case AppendReplied(id) => AppendRepliedStep(s.r, id);
    case QueueAwaited(id, k) => FinishWaitingStep(s.r, id, k);
    case TimerFires(id) => TimeOutStep(s.r, id);
  }

  // The main process only moves a call on, or takes a call off the list.
  predicate MainFootprint(r: Renderer, z: Renderer) {
    && z.now == r.now && z.registered == r.registered
    && z.abortCalls <= r.abortCalls && z.completeCalls <= r.completeCalls
    && z.transfers.Keys == r.transfers.Keys
    && forall id :: id in r.transfers ==>
         && z.transfers[id] == r.transfers[id].(call := z.transfers[id].call)
         && ChunkOf(z.transfers[id].call) == ChunkOf(r.transfers[id].call)
         && Appending(z.transfers[id].call) == Appending(r.transfers[id].call)
  }

  lemma CallFootprint(s: System, id: string, call: Call)
    requires id in s.r.transfers
    requires ChunkOf(call) == ChunkOf(s.r.transfers[id].call)
    requires Appending(call) == Appending(s.r.transfers[id].call)
    ensures MainFootprint(s.r, SetCall(s, id, call).r)
  {
  }

  lemma MainHasFootprint(s: System, e: Event)
    requires Enabled(s, e) && AtMain(e)
    ensures MainFootprint(s.r, ApplyMain(s, e).r)
  {
    if e.MainStart? {
      StartFootprint(s, e.id);
    } else if e.MainAllocated? {
      CallFootprint(s, e.id, StartReply(e.place));
    } else if e.MainAppend? {
      AppendFootprint(s, e.id);
    } else if e.MainWritten? {
      WrittenFootprint(s, e.id, e.ok);
    } else {
      NoCallFootprint(s, e);
    }
  }

  lemma StartFootprint(s: System, id: string)
    requires Enabled(s, MainStart(id))
    ensures MainFootprint(s.r, BeginStart(s, id).r)
  {
    CallFootprint(s, id, StartAllocating);
    CallFootprint(s, id, StartReply(None));
  }

  lemma WrittenFootprint(s: System, id: string, ok: bool)
    requires Enabled(s, MainWritten(id, ok))
    ensures MainFootprint(s.r, EndWrite(s, id, ok).r)
  {
    var c := s.r.transfers[id].call;
    CallFootprint(s, id, AppendReply(c.index, c.chunk, ok));
  }

  lemma NoCallFootprint(s: System, e: Event)
    requires Enabled(s, e) && AtMain(e)
    requires !e.MainStart? && !e.MainAllocated? && !e.MainAppend? && !e.MainWritten?
    ensures MainFootprint(s.r, ApplyMain(s, e).r)
  {
    var z := ApplyMain(s, e).r;
    FewerCalls(s, e);
    assert z.transfers == s.r.transfers;
  }

  predicate TakesCalls(r: Renderer, z: Renderer) {
    z == r.(abortCalls := z.abortCalls, completeCalls := z.completeCalls)
    && z.abortCalls <= r.abortCalls && z.completeCalls <= r.completeCalls
  }

  lemma FewerCalls(s: System, e: Event)
    requires Enabled(s, e) && AtMain(e)
    requires !e.MainStart? && !e.MainAllocated? && !e.MainAppend? && !e.MainWritten?
    ensures TakesCalls(s.r, ApplyMain(s, e).r)
  {
    if e.MainComplete? {
      CompleteTakesCall(s, e.id);
    } else if e.MainRenamed? {
    } else if e.MainAbort? {
      AbortTakesCall(s, e.id);
    } else {
    }
  }

  lemma CompleteTakesCall(s: System, id: string)
    requires Enabled(s, MainComplete(id))
    ensures TakesCalls(s.r, BeginComplete(s, id).r)
  {
  }

  lemma AbortTakesCall(s: System, id: string)
    requires Enabled(s, MainAbort(id))
    ensures TakesCalls(s.r, BeginAbort(s, id).r)
  {
  }

  lemma AppendFootprint(s: System, id: string)
    requires Enabled(s, MainAppend(id))
    ensures MainFootprint(s.r, BeginAppend(s, id).r)
  {
    var c := s.r.transfers[id].call;
    match AppendCheck(s.st, id, c.index, c.chunk)
    case Refused => CallFootprint(s, id, AppendReply(c.index, c.chunk, false));
    case Write(path) => CallFootprint(s, id, AppendWriting(c.index, c.chunk, path));
    case Overflow(path) => CallFootprint(s, id, AppendReply(c.index, c.chunk, false));
  }

  lemma MainKeepsBounded(r: Renderer, z: Renderer)
    requires Bounded(r) && MainFootprint(r, z)
    ensures Bounded(z)
  {
    forall x | x in z.transfers
      ensures TransferBounded(z, x)
    {
      assert TransferBounded(r, x);
    }
  }

  lemma EventKeepsBounded(s: System, e: Event)
    requires Bounded(s.r) && Enabled(s, e)
    ensures Bounded(Apply(s, e).r)
  {
    if AtMain(e) {
      MainHasFootprint(s, e);
      MainKeepsBounded(s.r, ApplyMain(s, e).r);
    } else {
      RendererKeepsBounded(s, e);
    }
  }

  lemma {:induction false} BoundedAlways(disk: Files, events: seq<Event>)
    requires Possible(Initial(disk), events)
    ensures Bounded(After(Initial(disk), events).r)
  {
    if events != [] {
      var front := events[..|events| - 1];
      BoundedAlways(disk, front);
      EventKeepsBounded(After(Initial(disk), front), events[|events| - 1]);
    }
  }

  /** Whatever messages arrive: at most four transfers are registered at any moment, each has its
      timer armed, and none is still registered later than 30 s per byte of its size, and once
      more, after its start. */
  lemma NoTransferStaysRegistered(disk: Files, events: seq<Event>)
    requires Possible(Initial(disk), events)
    ensures var r := After(Initial(disk), events).r;
      && |r.registered| <= 4
      && forall id :: id in r.registered ==>
           && id in r.transfers && r.transfers[id].deadline.Some?
           && r.now <= r.transfers[id].startedAt + 30000 * (1 + r.transfers[id].size)
  {
    BoundedAlways(disk, events);
    var r := After(Initial(disk), events).r;
    forall id | id in r.registered
      ensures r.now <= r.transfers[id].startedAt + 30000 * (1 + r.transfers[id].size)
    {
      assert TransferBounded(r, id);
      assert r.transfers[id].receivedBytes <= r.transfers[id].size;
    }
  }

  // A transfer is opened: new, registered, and asking the main process for a place.
  predicate Opens(r: Renderer, z: Renderer, id: string, name: string, size: int) {
    size >= 0 && z == r.(transfers := r.transfers[id := NewTransfer(name, size, r.now)], registered := r.registered + {id})
  }

  /** A start message opens its transfer if and only if its trimmed id is not empty, the id has at most 80
      and the name at most 260 characters, the size is from 0 to 268435456, the id is not registered, and
      fewer than four transfers are; else it does nothing. */
  lemma StartOpens(r: Renderer, raw: string, name: string, size: int)
    ensures var z, id := DeliverTo(r, FileStart(raw, name, size)), Trim(raw);
      if id != "" && |raw| <= 80 && |name| <= 260 && 0 <= size <= 268435456 && id !in r.registered && |r.registered| < 4
      then Opens(r, z, id, name, size) else z == r
  {
    StartIsValid(raw, name, size);
  }

  /** The timer of a transfer that stays registered is armed again only by counting bytes. */
  lemma RearmingCountsBytes(s: System, e: Event, id: string)
    requires Bounded(s.r) && Enabled(s, e)
    requires id in s.r.registered && id in Apply(s, e).r.registered
    requires id in Apply(s, e).r.transfers
    requires Apply(s, e).r.transfers[id].deadline != s.r.transfers[id].deadline
    ensures var t, u := s.r.transfers[id], Apply(s, e).r.transfers[id];
      u.size == t.size && 0 <= u.size - u.receivedBytes < t.size - t.receivedBytes
  {
    if AtMain(e) {
      MainHasFootprint(s, e);
    } else if e.Deliver? {
      DeliverDoesNotRearm(s.r, e.m, id);
    } else if e.ChannelCloses? || e.Tick? {
    } else {
      TransferStep(s, e);
    }
  }

  lemma DeliverDoesNotRearm(r: Renderer, m: Message, id: string)
    requires id in r.registered && id in r.transfers
    ensures id in DeliverTo(r, m).registered && id in DeliverTo(r, m).transfers ==>
              DeliverTo(r, m).transfers[id].deadline == r.transfers[id].deadline
  {
  }
}
