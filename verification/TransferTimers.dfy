// The timer of a transfer: it runs for thirty seconds from the start of the transfer and from every
// chunk that is counted. So a transfer whose chunks are acknowledged in time is not failed by its
// timer, and is delivered.

module TransferTimers {
  import opened Basics
  import opened DataChannel
  import opened FileStore
  import opened FileReceiver
  import opened FileTransfer
  import opened FileTermination
  import opened FileDelivery
  import FileSender

  // ----- what moves the timer

  // Transfer id enters the map, or one more of its chunks is counted.
  predicate Progresses(r: Renderer, z: Renderer, id: string) {
    (id in z.registered && id !in r.registered)
    || (id in r.transfers && id in z.transfers && z.transfers[id].nextChunkIndex > r.transfers[id].nextChunkIndex)
  }

  // When that happened last, up to one more step.
  function Latest(r: Renderer, z: Renderer, id: string, last: nat): nat { if Progresses(r, z, id) then r.now else last }

  ghost function LastProgress(start: System, events: seq<Event>, id: string): nat {
    if events == [] then 0
    else
      var front := events[..|events| - 1];
      Latest(After(start, front).r, After(start, events).r, id, LastProgress(start, front, id))
  }

  // After one step the timer of a registered transfer has been armed for thirty seconds, or is as it was.
  predicate TimerMoves(r: Renderer, z: Renderer, id: string) {
    id in z.registered ==>
      id in z.transfers
      && if Progresses(r, z, id) then z.transfers[id].deadline == Some(r.now + 30000)
         else id in r.registered && id in r.transfers && z.transfers[id].deadline == r.transfers[id].deadline
  }

  lemma MainMovesNoTimer(r: Renderer, z: Renderer, id: string)
    requires Bounded(r) && MainFootprint(r, z)
    ensures TimerMoves(r, z, id)
  {
  }

  // A transfer that is not the one of the event.
  lemma OtherMovesNoTimer(r: Renderer, z: Renderer, id: string, other: string)
    requires Bounded(r) && other in r.transfers && other in z.transfers && id != other
    requires z.transfers == r.transfers[other := z.transfers[other]]
    requires z.registered == r.registered || z.registered == r.registered - {other}
    ensures TimerMoves(r, z, id)
  {
  }

  lemma AppendReplyMovesTimer(r: Renderer, id: string)
    requires Bounded(r) && id in r.transfers && r.transfers[id].call.AppendReply?
    ensures TimerMoves(r, FileReceiver.AppendReplied(r, id), id)
  {
    assert TransferBounded(r, id);
  }

  lemma StartReplyMovesTimer(r: Renderer, id: string)
    requires Bounded(r) && id in r.transfers && r.transfers[id].call.StartReply?
    ensures TimerMoves(r, FileReceiver.StartReplied(r, id), id)
  {
  }

  lemma TaskMovesNoTimer(r: Renderer, id: string)
    requires Bounded(r) && TaskReady(r, id)
    ensures TimerMoves(r, RunTask(r, id), id)
  {
  }

  lemma WaitMovesNoTimer(r: Renderer, id: string, k: nat)
    requires Bounded(r) && WaiterReady(r, id, k)
    ensures TimerMoves(r, FinishWaiting(r, id, k), id)
  {
  }

  lemma TimeOutMovesNoTimer(r: Renderer, id: string)
    requires Bounded(r) && TimerDue(r, id)
    ensures TimerMoves(r, TimeOut(r, id), id)
  {
  }

  lemma OwnEventMovesTimer(s: System, e: Event, id: string)
    requires Bounded(s.r) && Enabled(s, e) && !AtMain(e) && !e.Deliver? && !e.ChannelCloses? && !e.Tick? && e.id == id
    ensures TimerMoves(s.r, ApplyRenderer(s, e), id)
  {
    if e.StartReplied? {
      StartReplyMovesTimer(s.r, id);
    } else if e.TaskStarts? {
      TaskMovesNoTimer(s.r, id);
    } else if e.AppendReplied? {
      AppendReplyMovesTimer(s.r, id);
    } else if e.QueueAwaited? {
      WaitMovesNoTimer(s.r, id, e.k);
    } else {
      TimeOutMovesNoTimer(s.r, id);
    }
  }

  lemma TransferEventMovesTimer(s: System, e: Event, id: string)
    requires Bounded(s.r) && Enabled(s, e) && !AtMain(e) && !e.Deliver? && !e.ChannelCloses? && !e.Tick?
    ensures TimerMoves(s.r, ApplyRenderer(s, e), id)
  {
    if e.id == id {
      OwnEventMovesTimer(s, e, id);
    } else {
      TransferStep(s, e);
      OtherMovesNoTimer(s.r, ApplyRenderer(s, e), id, e.id);
    }
  }

  lemma BeginMovesTimer(r: Renderer, other: string, name: string, size: int, id: string)
    requires Bounded(r)
    ensures TimerMoves(r, Begin(r, other, name, size), id)
  {
  }

  lemma FailMovesNoTimer(r: Renderer, other: string, id: string)
    requires Bounded(r)
    ensures TimerMoves(r, Fail(r, other), id)
  {
  }

  lemma QueueingMovesNoTimer(r: Renderer, other: string, index: int, data: string, checksum: string, id: string)
    requires Bounded(r)
    ensures TimerMoves(r, Enqueue(r, other, index, data), id) && TimerMoves(r, AwaitQueue(r, other, checksum), id)
  {
  }

  lemma ReceiptMovesTimer(r: Renderer, m: Message, id: string)
    requires Bounded(r)
    ensures TimerMoves(r, Receive(r, m), id)
  {
    match m
    case FileStart(other, name, size) => BeginMovesTimer(r, other, name, size, id);
    case FileChunk(other, index, data) => QueueingMovesNoTimer(r, other, index, data, "", id);
    case FileComplete(other, checksum) => QueueingMovesNoTimer(r, other, 0, "", checksum, id);
    case FileAbort(other) => FailMovesNoTimer(r, other, id);
  }

  lemma EventMovesTimer(s: System, e: Event, id: string)
    requires Bounded(s.r) && Enabled(s, e)
    ensures TimerMoves(s.r, Apply(s, e).r, id)
  {
    if AtMain(e) {
      MainHasFootprint(s, e);
      MainMovesNoTimer(s.r, ApplyMain(s, e).r, id);
    } else if e.Deliver? {
      DeliveryMovesTimer(s, e.m, id);
    } else if e.ChannelCloses? || e.Tick? {
    } else {
      TransferEventMovesTimer(s, e, id);
    }
  }

  lemma DeliveryMovesTimer(s: System, m: Message, id: string)
    requires Bounded(s.r)
    ensures TimerMoves(s.r, DeliverTo(s.r, m), id)
  {
    if Sanitize(m).Some? {
      ReceiptMovesTimer(s.r, Sanitize(m).value, id);
    }
  }

  // The timer of the transfer, if it is registered, is armed for thirty seconds after `last`.
  predicate ArmedSince(r: Renderer, id: string, last: nat) {
    id in r.registered ==> id in r.transfers && r.transfers[id].deadline == Some(last + 30000)
  }

  lemma ArmedStep(s: System, e: Event, id: string, last: nat, z: System)
    requires Bounded(s.r) && Enabled(s, e) && ArmedSince(s.r, id, last) && z == Apply(s, e)
    ensures ArmedSince(z.r, id, Latest(s.r, z.r, id, last))
  {
    EventMovesTimer(s, e, id);
    ArmedMove(s.r, z.r, id, last);
  }

  lemma ArmedMove(r: Renderer, z: Renderer, id: string, last: nat)
    requires TimerMoves(r, z, id) && ArmedSince(r, id, last)
    ensures ArmedSince(z, id, Latest(r, z, id, last))
  {
  }

  /** In every run, whatever messages arrive, the timer of a registered transfer is armed for exactly
      thirty seconds after the later of its start and its last counted chunk. */
  lemma {:induction false} DeadlineIsExact(disk: Files, events: seq<Event>, id: string)
    requires Possible(Initial(disk), events)
    ensures ArmedSince(After(Initial(disk), events).r, id, LastProgress(Initial(disk), events, id))
  {
    if events != [] {
      var front := events[..|events| - 1];
      DeadlineIsExact(disk, front, id);
      BoundedAlways(disk, front);
      ArmedStep(After(Initial(disk), front), events[|events| - 1], id, LastProgress(Initial(disk), front, id),
                After(Initial(disk), events));
    }
  }

  lemma DueIs(s: System, id: string, last: nat)
    requires ArmedSince(s.r, id, last) && id in s.r.registered
    ensures Enabled(s, TimerFires(id)) <==> s.r.now >= last + 30000
  {
  }

  /** So the timer of a registered transfer can fire exactly when thirty seconds have passed without a
      counted chunk. */
  lemma TimerIsDueWhenIdle(disk: Files, events: seq<Event>, id: string)
    requires Possible(Initial(disk), events) && id in After(Initial(disk), events).r.registered
    ensures var s := After(Initial(disk), events);
      Enabled(s, TimerFires(id)) <==> s.r.now >= LastProgress(Initial(disk), events, id) + 30000
  {
    DeadlineIsExact(disk, events, id);
    DueIs(After(Initial(disk), events), id, LastProgress(Initial(disk), events, id));
  }

  /** When it fires, the transfer fails: it leaves the map, with no timer, and one abort call is sent. */
  lemma TimerEndsTransfer(s: System, id: string)
    requires Bounded(s.r) && id in s.r.registered && Enabled(s, TimerFires(id))
    ensures var z := Apply(s, TimerFires(id)).r;
      id in z.transfers && z.transfers[id].failed && z.transfers[id].deadline.None? && z.registered == s.r.registered - {id}
      && z.abortCalls == s.r.abortCalls + multiset{id}
  {
  }

  // ----- delivery in time

  // The clock does not move on to thirty seconds after the start or the last counted chunk while the
  // transfer is registered.
  predicate InTime(r: Renderer, id: string, last: nat, e: Event) {
    e.Tick? && id in r.registered ==> r.now + e.ms < last + 30000
  }

  // As a smooth run, but instead of forbidding the transfer's timer to fire, this bounds the gaps
  // between its acknowledgements.
  ghost predicate TimelyRun(files: map<string, seq<byte>>, start: System, id: string, name: string, events: seq<Event>) {
    events == []
    || var front, e := events[..|events| - 1], events[|events| - 1];
       && TimelyRun(files, start, id, name, front)
       && Legal(files, After(start, front), e) && InTime(After(start, front).r, id, LastProgress(start, front, id), e)
       && id in files
       && (e == TimerFires(id) || Smooth(files[id], After(start, front), id, name, DeliveredCount(front, id), e))
  }

  // The clock has not reached the transfer's deadline, and one that has left the map has none.
  predicate TimerIsAhead(r: Renderer, id: string, last: nat) {
    ArmedSince(r, id, last)
    && if id in r.registered then r.now < last + 30000 else id in r.transfers ==> r.transfers[id].deadline.None?
  }

  // A transfer that is not in the map gets no timer, unless a chunk of it is counted.
  lemma NoTimerOutside(s: System, e: Event, id: string)
    requires Bounded(s.r) && Enabled(s, e) && id in Apply(s, e).r.transfers && id !in Apply(s, e).r.registered
    requires id in s.r.transfers
    requires id in s.r.registered || (s.r.transfers[id].deadline.None? && !s.r.transfers[id].call.AppendReply?)
    ensures Apply(s, e).r.transfers[id].deadline.None?
  {
    if AtMain(e) {
      MainHasFootprint(s, e);
    } else if e.Deliver? {
      NoTimerAfterReceipt(s.r, e.m, id);
    } else if e.ChannelCloses? || e.Tick? {
    } else if e.id != id {
      TransferStep(s, e);
    } else {
      NoTimerAfterOwn(s, e, id);
    }
  }

  lemma NoTimerAfterReceipt(r: Renderer, m: Message, id: string)
    requires Bounded(r) && id in DeliverTo(r, m).transfers && id !in DeliverTo(r, m).registered
    requires id in r.transfers && (id in r.registered || r.transfers[id].deadline.None?)
    ensures DeliverTo(r, m).transfers[id].deadline.None?
  {
  }

  lemma NoTimerAfterOwn(s: System, e: Event, id: string)
    requires Bounded(s.r) && Enabled(s, e) && !AtMain(e)
    requires id in ApplyRenderer(s, e).transfers && id !in ApplyRenderer(s, e).registered
    requires e == FileTransfer.StartReplied(id) || e == TaskStarts(id) || e == FileTransfer.AppendReplied(id)
             || (e.QueueAwaited? && e.id == id) || e == TimerFires(id)
    requires id in s.r.transfers
    requires id in s.r.registered || (s.r.transfers[id].deadline.None? && !s.r.transfers[id].call.AppendReply?)
    ensures ApplyRenderer(s, e).transfers[id].deadline.None?
  {
    assert TransferBounded(s.r, id);
  }

  // No reply to an append is on its way for a transfer that has left the map.
  lemma NoReplyOutside(file: seq<byte>, s: System, id: string, d: nat)
    requires OnCourse(file, s, id, d) && id in s.r.transfers && id !in s.r.registered
    ensures d > 0 && !s.r.transfers[id].call.AppendReply?
  {
  }

  lemma AheadStep(s: System, e: Event, id: string, last: nat, z: System)
    requires Bounded(s.r) && Enabled(s, e) && TimerIsAhead(s.r, id, last) && InTime(s.r, id, last, e) && z == Apply(s, e)
    requires id in s.r.transfers && id !in s.r.registered ==> !s.r.transfers[id].call.AppendReply?
    requires id in z.r.transfers && id !in s.r.transfers ==> id in z.r.registered
    ensures TimerIsAhead(z.r, id, Latest(s.r, z.r, id, last))
  {
    ArmedStep(s, e, id, last, z);
    EventMovesTimer(s, e, id);
    ClockStep(s, e);
    if id in z.r.transfers && id !in z.r.registered {
      NoTimerOutside(s, e, id);
    }
  }

  // Only a tick moves the clock.
  lemma ClockStep(s: System, e: Event)
    requires Bounded(s.r) && Enabled(s, e)
    ensures Apply(s, e).r.now == s.r.now + if e.Tick? then e.ms else 0
  {
    if AtMain(e) {
      MainHasFootprint(s, e);
    } else if e.Deliver? || e.ChannelCloses? || e.Tick? {
    } else {
      TransferStep(s, e);
    }
  }

  // A transfer appears by being registered.
  lemma AppearsRegistered(s: System, e: Event, id: string)
    requires Bounded(s.r) && Enabled(s, e) && id in Apply(s, e).r.transfers && id !in s.r.transfers
    ensures id in Apply(s, e).r.registered
  {
    if AtMain(e) {
      MainHasFootprint(s, e);
    } else if e.Deliver? {
    } else if e.ChannelCloses? || e.Tick? {
    } else {
      TransferStep(s, e);
    }
  }

  lemma TimerIsNotDue(s: System, id: string, last: nat)
    requires TimerIsAhead(s.r, id, last)
    ensures !Enabled(s, TimerFires(id))
  {
  }

  lemma TimelyStep(files: map<string, seq<byte>>, s: System, id: string, name: string, d: nat, e: Event, last: nat, z: System)
    requires Now(files, s, id, d) && Legal(files, s, e) && TimerIsAhead(s.r, id, last) && InTime(s.r, id, last, e)
    requires e == TimerFires(id) || Smooth(files[id], s, id, name, d, e)
    requires z == Apply(s, e)
    ensures Smooth(files[id], s, id, name, d, e) && TimerIsAhead(z.r, id, Latest(s.r, z.r, id, last))
  {
    TimerIsNotDue(s, id, last);
    if id in s.r.transfers && id !in s.r.registered {
      NoReplyOutside(files[id], s, id, d);
    }
    if id in z.r.transfers && id !in s.r.transfers {
      AppearsRegistered(s, e, id);
    }
    AheadStep(s, e, id, last, z);
  }

  lemma {:induction false} TimelyIsSmooth(files: map<string, seq<byte>>, disk: Files, id: string, name: string, events: seq<Event>)
    requires ProperFiles(files) && id in files && files[id] != [] && |name| <= DataChannel.MAX_FILE_NAME_LENGTH
    requires TimelyRun(files, Initial(disk), id, name, events)
    ensures SmoothRun(files, Initial(disk), id, name, events)
    ensures TimerIsAhead(After(Initial(disk), events).r, id, LastProgress(Initial(disk), events, id))
  {
    if events != [] {
      var front, e := events[..|events| - 1], events[|events| - 1];
      TimelyIsSmooth(files, disk, id, name, front);
      SmoothRunStaysOnCourse(files, disk, id, name, front);
      TimelyStep(files, After(Initial(disk), front), id, name, DeliveredCount(front, id), e,
                 LastProgress(Initial(disk), front, id), After(Initial(disk), events));
    }
  }

  /** Delivery in time: a transfer of at least one byte whose messages come once each and in order, for
      which nothing fails, and whose start and acknowledgements are each followed by the next within
      thirty seconds, is never timed out, failed or rejected, whatever the other transfers do; until it
      has taken 5 * ceil(size / 49152) + 8 steps another one is possible; it never takes more; and then
      its file is saved, byte for byte. */
  lemma DeliveryInTime(files: map<string, seq<byte>>, disk: Files, id: string, name: string, events: seq<Event>)
    requires ProperFiles(files) && id in files && files[id] != [] && |name| <= 260
    requires TimelyRun(files, Initial(disk), id, name, events)
    ensures var s, d := After(Initial(disk), events), DeliveredCount(events, id);
      var steps, all := StepCount(Initial(disk), events, id), 5 * FileSender.ChunkCount(|files[id]|) + 8;
      && (id in s.r.transfers ==> !s.r.transfers[id].failed && !s.r.transfers[id].rejected)
      && !Enabled(s, TimerFires(id))
      && steps <= all
      && (steps < all ==> (d == 0 ==> |s.r.registered| < 4) ==> SomeStep(files, s, id, name, d))
      && (steps == all ==> exists p :: p in s.saved && p in s.owner && s.owner[p] == id
                             && p in s.st.files && s.st.files[p] == files[id])
  {
    TimelyIsSmooth(files, disk, id, name, events);
    TimerIsNotDue(After(Initial(disk), events), id, LastProgress(Initial(disk), events, id));
    Delivery(files, disk, id, name, events);
  }
}
