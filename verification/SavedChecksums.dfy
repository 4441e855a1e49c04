// A transfer under any messages whatever: what a sender did not send, and what the network has
// changed, may be delivered too. A file is still reported as saved only if its length is the one
// announced and its checksum is one that a complete message of its transfer carried.

module SavedChecksums {
  import opened Basics
  import opened Checksum
  import opened DataChannel
  import opened FileStore
  import opened FileReceiver
  import opened FileTransfer
  import opened FileTermination

  // What the receiver was told: the delivered messages, as its validators leave them.
  ghost function Told(e: Event): set<Message> {
    if e.Deliver? && Sanitize(e.m).Some? then {Sanitize(e.m).value} else {}
  }

  ghost function Deliveries(events: seq<Event>): set<Message> {
    if events == [] then {} else Deliveries(events[..|events| - 1]) + Told(events[|events| - 1])
  }

  ghost predicate DeliveredAt(events: seq<Event>, m: Message, j: int) {
    0 <= j < |events| && events[j].Deliver? && Sanitize(events[j].m) == Some(m)
  }

  ghost predicate Delivered(events: seq<Event>, m: Message) { exists j :: DeliveredAt(events, m, j) }

  lemma {:induction false} DeliveriesAre(events: seq<Event>, m: Message)
    ensures m in Deliveries(events) <==> Delivered(events, m)
  {
    if events != [] {
      DeliveriesAre(events[..|events| - 1], m);
      DeliveredBefore(events, m);
    }
  }

  lemma DeliveredBefore(events: seq<Event>, m: Message)
    requires events != []
    ensures Delivered(events, m) <==> Delivered(events[..|events| - 1], m) || m in Told(events[|events| - 1])
  {
    var front, last := events[..|events| - 1], |events| - 1;
    if j :| DeliveredAt(front, m, j) {
      assert DeliveredAt(events, m, j);
    }
    if m in Told(events[last]) {
      assert DeliveredAt(events, m, last);
    }
    if j :| DeliveredAt(events, m, j) {
      assert j < last ==> DeliveredAt(front, m, j);
    }
  }

  // ----- the invariant

  // What the main process has written for a transfer, as far as the renderer's counters and a
  // reply still on its way tell.
  function Written(t: Transfer): nat {
    t.receivedBytes + if t.call.AppendReply? && t.call.ok then |t.call.chunk| else 0
  }

  function Folded(t: Transfer): uint32 {
    if t.call.AppendReply? && t.call.ok then Fold(t.checksum, t.call.chunk) else t.checksum
  }

  ghost predicate Announced(log: set<Message>, id: string, size: nat) { exists name :: FileStart(id, name, size) in log }

  // All bytes are there, and their checksum is one that the sender sent.
  ghost predicate Finished(log: set<Message>, id: string, t: Transfer) {
    t.receivedBytes == t.size && FileComplete(id, FormatFileTransferChecksum(t.checksum)) in log
  }

  ghost predicate TransferSound(log: set<Message>, id: string, t: Transfer) {
    && Trim(id) == id && Announced(log, id, t.size)
    && (forall k :: 0 <= k < |t.waiters| ==> FileComplete(id, t.waiters[k].checksum) in log)
    && (Starting(t) ==> t.receivedBytes == 0 && t.nextChunkIndex == 0 && t.checksum == FNV_OFFSET)
  }

  ghost predicate RendererSound(log: set<Message>, r: Renderer) {
    && (forall id :: id in r.transfers ==> TransferSound(log, id, r.transfers[id]))
    && (forall id :: id in r.completeCalls ==> id in r.transfers && Finished(log, id, r.transfers[id]))
  }

  // These bytes are what the transfer has counted and folded.
  predicate Holds(bytes: seq<byte>, t: Transfer) { |bytes| == Written(t) && Fnv1a(bytes) == Folded(t) }

  ghost predicate SessionSound(log: set<Message>, s: System, p: Path, id: string, t: Transfer)
    requires p in s.st.sessions
  {
    && s.st.sessions[p].expectedSize == t.size
    && s.st.sessions[p].receivedBytes == Written(t)
    && (Live(s, p) || p in s.renames ==> Holds(Content(s.st.files, TempOf(p)), t))
    && (p in s.renames ==> Finished(log, id, t) && !Live(s, p))
    && (p in s.unlinks ==> !Live(s, p) && p !in s.renames)
    && (p in s.saved ==> !Live(s, p) && p !in s.renames && Finished(log, id, t) && Holds(Content(s.st.files, p), t))
  }

  ghost predicate SessionsSound(log: set<Message>, s: System) {
    forall p :: p in s.st.sessions ==>
      p in s.owner && s.owner[p] in s.r.transfers && SessionSound(log, s, p, s.owner[p], s.r.transfers[s.owner[p]])
  }

  ghost predicate Sound(log: set<Message>, s: System) {
    PathsOk(s) && Coupled(s) && RendererSound(log, s.r) && SessionsSound(log, s)
  }

  // ----- steps of the renderer

  // One transfer goes on without a write; once it is finished it stays as it is.
  predicate Keeps(t: Transfer, u: Transfer) {
    && u.size == t.size && Written(u) == Written(t) && Folded(u) == Folded(t) && SameFooting(t, u)
    && (t.receivedBytes == t.size ==> u.receivedBytes == t.receivedBytes && u.checksum == t.checksum)
  }

  lemma SessionKept(log: set<Message>, more: set<Message>, s: System, z: System, p: Path, id: string, t: Transfer, u: Transfer)
    requires p in s.st.sessions && SessionSound(log, s, p, id, t) && Keeps(t, u) && log <= more && z == s.(r := z.r)
    ensures SessionSound(more, z, p, id, u)
  {
    assert Live(z, p) == Live(s, p);
  }

  lemma RendererKept(log: set<Message>, more: set<Message>, s: System, r: Renderer)
    requires Sound(log, s) && log <= more && RendererSound(more, r) && s.r.transfers.Keys <= r.transfers.Keys
    requires forall id :: id in r.transfers ==>
               OwnsTarget(s, id, r.transfers[id]) && (id in s.r.transfers ==> Keeps(s.r.transfers[id], r.transfers[id]))
    ensures Sound(more, s.(r := r))
  {
    CouplingOfRendererAlone(s, r);
    forall p | p in s.st.sessions
      ensures SessionSound(more, s.(r := r), p, s.owner[p], r.transfers[s.owner[p]])
    {
      SessionKept(log, more, s, s.(r := r), p, s.owner[p], s.r.transfers[s.owner[p]], r.transfers[s.owner[p]]);
    }
  }

  // Only transfer id changes.
  ghost predicate Kept(log: set<Message>, r: Renderer, z: Renderer, id: string) {
    && id in r.transfers && id in z.transfers && z.transfers == r.transfers[id := z.transfers[id]]
    && Keeps(r.transfers[id], z.transfers[id]) && TransferSound(log, id, z.transfers[id])
    && (z.transfers[id].call.AppendWriting? ==> z.transfers[id].call == r.transfers[id].call)
    && (forall x :: x in z.completeCalls ==> x in r.completeCalls || (x == id && Finished(log, id, z.transfers[id])))
  }

  lemma TransferKeptSound(log: set<Message>, more: set<Message>, id: string, t: Transfer)
    requires TransferSound(log, id, t) && log <= more
    ensures TransferSound(more, id, t)
  {
    var name :| FileStart(id, name, t.size) in log;
    assert FileStart(id, name, t.size) in more;
  }

  lemma OneKept(log: set<Message>, more: set<Message>, s: System, r: Renderer, id: string)
    requires Sound(log, s) && log <= more && Kept(more, s.r, r, id)
    ensures Sound(more, s.(r := r))
  {
    OneKeptRenderer(log, more, s.r, r, id);
    forall x | x in r.transfers
      ensures OwnsTarget(s, x, r.transfers[x]) && Keeps(s.r.transfers[x], r.transfers[x])
    {
      assert OwnsTarget(s, x, s.r.transfers[x]);
    }
    RendererKept(log, more, s, r);
  }

  lemma OneKeptRenderer(log: set<Message>, more: set<Message>, r: Renderer, z: Renderer, id: string)
    requires RendererSound(log, r) && log <= more && Kept(more, r, z, id)
    ensures RendererSound(more, z)
  {
    forall x | x in z.transfers
      ensures TransferSound(more, x, z.transfers[x])
    {
      if x != id {
        TransferKeptSound(log, more, x, r.transfers[x]);
      }
    }
  }

  lemma NothingKept(log: set<Message>, more: set<Message>, s: System)
    requires Sound(log, s) && log <= more
    ensures Sound(more, s)
  {
    forall x | x in s.r.transfers
      ensures TransferSound(more, x, s.r.transfers[x]) && OwnsTarget(s, x, s.r.transfers[x])
    {
      TransferKeptSound(log, more, x, s.r.transfers[x]);
    }
    RendererKept(log, more, s, s.r);
    assert s.(r := s.r) == s;
  }

  lemma FailIsKept(log: set<Message>, r: Renderer, id: string)
    requires id in r.transfers && TransferSound(log, id, r.transfers[id])
    ensures Kept(log, r, Fail(r, id), id)
  {
    assert r.transfers == r.transfers[id := r.transfers[id]];
  }

  lemma RejectIsKept(log: set<Message>, r: Renderer, id: string)
    requires id in r.transfers && TransferSound(log, id, r.transfers[id])
    requires r.transfers[id].call.AppendReply? ==> !r.transfers[id].call.ok
    ensures Kept(log, r, Reject(r, id), id)
  {
    var t := r.transfers[id];
    var cut := r.(transfers := r.transfers[id := t.(rejected := true, call := NoCall, queue := [])]);
    assert TransferSound(log, id, cut.transfers[id]);
    FailIsKept(log, cut, id);
  }

  lemma StartReplyIsKept(log: set<Message>, r: Renderer, id: string)
    requires id in r.transfers && r.transfers[id].call.StartReply? && TransferSound(log, id, r.transfers[id])
    ensures Kept(log, r, FileReceiver.StartReplied(r, id), id)
  {
    if r.transfers[id].call.path.None? {
      RejectIsKept(log, r, id);
    }
  }

  lemma TaskIsKept(log: set<Message>, r: Renderer, id: string)
    requires TaskReady(r, id) && TransferSound(log, id, r.transfers[id])
    ensures Kept(log, r, RunTask(r, id), id)
  {
    RejectIsKept(log, r, id);
  }

  lemma AppendReplyIsKept(log: set<Message>, r: Renderer, id: string)
    requires id in r.transfers && r.transfers[id].call.AppendReply? && TransferSound(log, id, r.transfers[id])
    requires Counting(r.transfers[id])
    ensures Kept(log, r, FileReceiver.AppendReplied(r, id), id)
  {
    if !r.transfers[id].call.ok {
      RejectIsKept(log, r, id);
    } else {
      assert Keeps(r.transfers[id], Counted(r.transfers[id], r.now));
    }
  }

  lemma WaitIsKept(log: set<Message>, r: Renderer, id: string, k: nat)
    requires WaiterReady(r, id, k) && TransferSound(log, id, r.transfers[id])
    ensures Kept(log, r, FinishWaiting(r, id, k), id)
  {
    var t := r.transfers[id];
    assert FileComplete(id, t.waiters[k].checksum) in log;
  }

  lemma TimeOutIsKept(log: set<Message>, r: Renderer, id: string)
    requires TimerDue(r, id) && TransferSound(log, id, r.transfers[id])
    ensures Kept(log, r, TimeOut(r, id), id)
  {
    var quiet := r.(transfers := r.transfers[id := r.transfers[id].(deadline := None)]);
    FailIsKept(log, quiet, id);
  }

  lemma StartReplyKeepsSound(log: set<Message>, s: System, id: string)
    requires Sound(log, s) && id in s.r.transfers && s.r.transfers[id].call.StartReply?
    ensures Sound(log, s.(r := FileReceiver.StartReplied(s.r, id)))
  {
    assert TransferSound(log, id, s.r.transfers[id]);
    StartReplyIsKept(log, s.r, id);
    OneKept(log, log, s, FileReceiver.StartReplied(s.r, id), id);
  }

  lemma TaskKeepsSound(log: set<Message>, s: System, id: string)
    requires Sound(log, s) && TaskReady(s.r, id)
    ensures Sound(log, s.(r := RunTask(s.r, id)))
  {
    assert TransferSound(log, id, s.r.transfers[id]);
    TaskIsKept(log, s.r, id);
    OneKept(log, log, s, RunTask(s.r, id), id);
  }

  lemma AppendReplyKeepsSound(log: set<Message>, s: System, id: string)
    requires Sound(log, s) && Bounded(s.r) && id in s.r.transfers && s.r.transfers[id].call.AppendReply?
    ensures Sound(log, s.(r := FileReceiver.AppendReplied(s.r, id)))
  {
    assert TransferSound(log, id, s.r.transfers[id]) && TransferBounded(s.r, id);
    AppendReplyIsKept(log, s.r, id);
    OneKept(log, log, s, FileReceiver.AppendReplied(s.r, id), id);
  }

  lemma WaitKeepsSound(log: set<Message>, s: System, id: string, k: nat)
    requires Sound(log, s) && WaiterReady(s.r, id, k)
    ensures Sound(log, s.(r := FinishWaiting(s.r, id, k)))
  {
    assert TransferSound(log, id, s.r.transfers[id]);
    WaitIsKept(log, s.r, id, k);
    OneKept(log, log, s, FinishWaiting(s.r, id, k), id);
  }

  lemma TimeOutKeepsSound(log: set<Message>, s: System, id: string)
    requires Sound(log, s) && TimerDue(s.r, id)
    ensures Sound(log, s.(r := TimeOut(s.r, id)))
  {
    assert TransferSound(log, id, s.r.transfers[id]);
    TimeOutIsKept(log, s.r, id);
    OneKept(log, log, s, TimeOut(s.r, id), id);
  }

  lemma InterruptKeepsSound(log: set<Message>, s: System)
    requires Sound(log, s)
    ensures Sound(log, s.(r := Interrupt(s.r)))
  {
    var r := Interrupt(s.r);
    forall id | id in r.transfers
      ensures TransferSound(log, id, r.transfers[id]) && OwnsTarget(s, id, r.transfers[id])
      ensures Keeps(s.r.transfers[id], r.transfers[id])
    {
      assert TransferSound(log, id, s.r.transfers[id]) && OwnsTarget(s, id, s.r.transfers[id]);
    }
    RendererKept(log, log, s, r);
  }

  lemma TickKeepsSound(log: set<Message>, s: System, ms: nat)
    requires Sound(log, s)
    ensures Sound(log, s.(r := s.r.(now := s.r.now + ms)))
  {
    forall id | id in s.r.transfers
      ensures OwnsTarget(s, id, s.r.transfers[id])
    {
    }
    RendererKept(log, log, s, s.r.(now := s.r.now + ms));
  }

  // ----- messages

  lemma BeginKeepsSound(log: set<Message>, s: System, id: string, name: string, size: int)
    requires Sound(log, s) && size >= 0 && Trim(id) == id && FileStart(id, name, size) in log
    requires id in s.r.transfers ==> id in s.r.registered
    ensures Sound(log, s.(r := Begin(s.r, id, name, size)))
  {
    var r := Begin(s.r, id, name, size);
    if r == s.r {
      assert s.(r := s.r) == s;
    } else {
      assert r.transfers == s.r.transfers[id := NewTransfer(name, size, s.r.now)];
      assert TransferSound(log, id, r.transfers[id]);
      forall x | x in r.transfers
        ensures OwnsTarget(s, x, r.transfers[x]) && (x in s.r.transfers ==> Keeps(s.r.transfers[x], r.transfers[x]))
      {
        assert x != id ==> OwnsTarget(s, x, s.r.transfers[x]);
      }
      RendererKept(log, log, s, r);
    }
  }

  lemma ReceiveKeepsSound(log: set<Message>, s: System, m: Message)
    requires Sound(log, s) && m in log && Trim(m.transferId) == m.transferId && FreshStart(s, m)
    requires m.FileStart? ==> m.size >= 0
    ensures Sound(log, s.(r := Receive(s.r, m)))
  {
    var id := m.transferId;
    if m.FileStart? {
      BeginKeepsSound(log, s, id, m.name, m.size);
    } else if id in s.r.transfers {
      ReceiveIsKept(log, s.r, m);
      OneKept(log, log, s, Receive(s.r, m), id);
    } else {
      assert Receive(s.r, m) == s.r && s.(r := s.r) == s;
    }
  }

  lemma ReceiveIsKept(log: set<Message>, r: Renderer, m: Message)
    requires RendererSound(log, r) && m in log && m.transferId in r.transfers && !m.FileStart?
    ensures Kept(log, r, Receive(r, m), m.transferId)
  {
    var id := m.transferId;
    assert TransferSound(log, id, r.transfers[id]);
    match m
    case FileChunk(_, index, data) => EnqueueIsKept(log, r, id, index, data);
    case FileComplete(_, checksum) => AwaitIsKept(log, r, id, checksum);
    case FileAbort(_) => FailIsKept(log, r, id);
  }

  lemma EnqueueIsKept(log: set<Message>, r: Renderer, id: string, index: int, data: string)
    requires id in r.transfers && TransferSound(log, id, r.transfers[id])
    ensures Kept(log, r, Enqueue(r, id, index, data), id)
  {
    assert r.transfers == r.transfers[id := r.transfers[id]];
  }

  lemma AwaitIsKept(log: set<Message>, r: Renderer, id: string, checksum: string)
    requires id in r.transfers && TransferSound(log, id, r.transfers[id]) && FileComplete(id, checksum) in log
    ensures Kept(log, r, AwaitQueue(r, id, checksum), id)
  {
    assert r.transfers == r.transfers[id := r.transfers[id]];
  }

  lemma SanitizedId(m: Message)
    requires Sanitize(m).Some?
    ensures var v := Sanitize(m).value; Trim(v.transferId) == v.transferId && (v.FileStart? ==> v.size >= 0)
  {
    TrimTwice(m.transferId);
  }

  lemma DeliverKeepsSound(log: set<Message>, s: System, m: Message)
    requires Sound(log, s) && Enabled(s, Deliver(m))
    ensures Sound(log + Told(Deliver(m)), s.(r := DeliverTo(s.r, m)))
  {
    NothingKept(log, log + Told(Deliver(m)), s);
    if Sanitize(m).Some? {
      SanitizedId(m);
      ReceiveKeepsSound(log + Told(Deliver(m)), s, Sanitize(m).value);
    } else {
      assert s.(r := s.r) == s;
    }
  }

  lemma QueueEventKeepsSound(log: set<Message>, s: System, e: Event)
    requires Sound(log, s) && Bounded(s.r) && Enabled(s, e) && (e.StartReplied? || e.TaskStarts? || e.AppendReplied?)
    ensures Sound(log, s.(r := ApplyRenderer(s, e)))
  {
    match e
    case StartReplied(id) => StartReplyKeepsSound(log, s, id);
    case TaskStarts(id) => TaskKeepsSound(log, s, id);
    case AppendReplied(id) => AppendReplyKeepsSound(log, s, id);
  }

  lemma ChannelOrClockKeepsSound(log: set<Message>, s: System, e: Event)
    requires Sound(log, s) && Enabled(s, e) && (e.ChannelCloses? || e.Tick?)
    ensures Sound(log, s.(r := ApplyRenderer(s, e)))
  {
    if e.ChannelCloses? {
      ChannelKeepsSound(log, s);
    } else {
      ClockKeepsSound(log, s, e.ms);
    }
  }

  lemma ChannelKeepsSound(log: set<Message>, s: System)
    requires Sound(log, s) && Enabled(s, ChannelCloses)
    ensures Sound(log, s.(r := ApplyRenderer(s, ChannelCloses)))
  {
    InterruptKeepsSound(log, s);
  }

  lemma TickIs(s: System, ms: nat)
    requires Enabled(s, Tick(ms))
    ensures ApplyRenderer(s, Tick(ms)) == s.r.(now := s.r.now + ms)
  {
  }

  lemma ClockKeepsSound(log: set<Message>, s: System, ms: nat)
    requires Sound(log, s) && Enabled(s, Tick(ms))
    ensures Sound(log, s.(r := ApplyRenderer(s, Tick(ms))))
  {
    TickIs(s, ms);
    TickKeepsSound(log, s, ms);
  }

  lemma OtherEventKeepsSound(log: set<Message>, s: System, e: Event)
    requires Sound(log, s) && Enabled(s, e)
    requires e.QueueAwaited? || e.TimerFires? || e.ChannelCloses? || e.Tick?
    ensures Sound(log, s.(r := ApplyRenderer(s, e)))
  {
    if e.QueueAwaited? {
      WaitKeepsSound(log, s, e.id, e.k);
    } else if e.TimerFires? {
      TimeOutKeepsSound(log, s, e.id);
    } else {
      ChannelOrClockKeepsSound(log, s, e);
    }
  }

  // ----- steps of the main process

  lemma KeyIsId(log: set<Message>, s: System, id: string)
    requires RendererSound(log, s.r) && id in s.r.transfers
    ensures SanitizeTransferKey(id) == id
  {
    assert TransferSound(log, id, s.r.transfers[id]);
  }

  lemma CallKeepsSound(log: set<Message>, s: System, id: string, call: Call)
    requires Sound(log, s) && id in s.r.transfers
    requires var t := s.r.transfers[id];
      Keeps(t, t.(call := call)) && TransferSound(log, id, t.(call := call)) && OwnsTarget(s, id, t.(call := call))
    ensures Sound(log, SetCall(s, id, call))
  {
    var r := SetCall(s, id, call).r;
    forall x | x in r.transfers
      ensures TransferSound(log, x, r.transfers[x]) && OwnsTarget(s, x, r.transfers[x])
      ensures Keeps(s.r.transfers[x], r.transfers[x])
    {
      assert x != id ==> TransferSound(log, x, s.r.transfers[x]) && OwnsTarget(s, x, s.r.transfers[x]);
    }
    RendererKept(log, log, s, r);
  }

  lemma BeginStartKeepsSound(log: set<Message>, s: System, id: string)
    requires Sound(log, s) && Enabled(s, MainStart(id))
    ensures Sound(log, BeginStart(s, id))
  {
    assert TransferSound(log, id, s.r.transfers[id]);
    CallKeepsSound(log, s, id, StartAllocating);
    CallKeepsSound(log, s, id, StartReply(None));
  }

  /** The main process's own size check never fires: the renderer has checked already, and the two
      counters agree. */
  lemma NeverOverflows(log: set<Message>, s: System, id: string)
    requires Sound(log, s) && Bounded(s.r) && id in s.r.transfers && s.r.transfers[id].call.AppendSent?
    ensures !AppendCheck(s.st, id, s.r.transfers[id].call.index, s.r.transfers[id].call.chunk).Overflow?
  {
    var c := s.r.transfers[id].call;
    KeyIsId(log, s, id);
    if id in s.st.saves {
      SessionHasRoom(log, s, id);
    }
    NoOverflow(s.st, id, c.index, c.chunk);
  }

  lemma SessionHasRoom(log: set<Message>, s: System, id: string)
    requires Sound(log, s) && Bounded(s.r) && id in s.r.transfers && s.r.transfers[id].call.AppendSent? && id in s.st.saves
    ensures var p := s.st.saves[id];
      p in s.st.sessions
      && s.st.sessions[p].receivedBytes + |s.r.transfers[id].call.chunk| <= s.st.sessions[p].expectedSize
  {
    var p := s.st.saves[id];
    assert TransferBounded(s.r, id);
    assert p in s.st.sessions && s.owner[p] == id;
    assert SessionSound(log, s, p, id, s.r.transfers[id]);
  }

  lemma BeginAppendKeepsSound(log: set<Message>, s: System, id: string)
    requires Sound(log, s) && Bounded(s.r) && Enabled(s, MainAppend(id))
    ensures Sound(log, BeginAppend(s, id))
  {
    var c := s.r.transfers[id].call;
    var verdict := AppendCheck(s.st, id, c.index, c.chunk);
    NeverOverflows(log, s, id);
    if verdict.Write? {
      AppendWritingKeepsSound(log, s, id, verdict.path);
    } else {
      AppendRefusedKeepsSound(log, s, id);
    }
  }

  lemma AppendWritingKeepsSound(log: set<Message>, s: System, id: string, path: Path)
    requires Sound(log, s) && Enabled(s, MainAppend(id))
    requires var c := s.r.transfers[id].call; AppendCheck(s.st, id, c.index, c.chunk) == AppendVerdict.Write(path)
    ensures var c := s.r.transfers[id].call; Sound(log, SetCall(s, id, AppendWriting(c.index, c.chunk, path)))
  {
    var c := s.r.transfers[id].call;
    assert TransferSound(log, id, s.r.transfers[id]);
    KeyIsId(log, s, id);
    CallKeepsSound(log, s, id, AppendWriting(c.index, c.chunk, path));
  }

  lemma AppendRefusedKeepsSound(log: set<Message>, s: System, id: string)
    requires Sound(log, s) && Enabled(s, MainAppend(id))
    ensures var c := s.r.transfers[id].call; Sound(log, SetCall(s, id, AppendReply(c.index, c.chunk, false)))
  {
    var c := s.r.transfers[id].call;
    assert TransferSound(log, id, s.r.transfers[id]);
    CallKeepsSound(log, s, id, AppendReply(c.index, c.chunk, false));
  }

  lemma UnlinkBegins(log: set<Message>, s: System, id: string, path: Path)
    requires Sound(log, s) && id in s.st.saves && s.st.saves[id] == path
    ensures Sound(log, s.(st := Forget(s.st, id), unlinks := s.unlinks + {path}))
  {
    NotRenamed(log, s, id);
    ForgetKeepsSound(log, s, s.(st := Forget(s.st, id), unlinks := s.unlinks + {path}), id);
  }

  lemma ForgetKeepsSound(log: set<Message>, s: System, z: System, id: string)
    requires Sound(log, s) && Forgotten(s, z, id)
    requires s.st.saves[id] in z.renames ==>
               id in s.r.transfers && Finished(log, id, s.r.transfers[id])
    ensures Sound(log, z)
  {
    forall p | p in z.st.sessions
      ensures SessionSound(log, z, p, s.owner[p], s.r.transfers[s.owner[p]])
    {
      ForgottenSession(log, s, z, id, p);
    }
    ForgetKeepsPaths(s, z, id);
  }

  lemma ForgetKeepsPaths(s: System, z: System, id: string)
    requires PathsOk(s) && Coupled(s) && Forgotten(s, z, id)
    ensures PathsOk(z) && Coupled(z)
  {
    forall x | x in z.r.transfers
      ensures OwnsTarget(z, x, z.r.transfers[x])
    {
      assert OwnsTarget(s, x, s.r.transfers[x]);
    }
  }

  lemma ForgottenSession(log: set<Message>, s: System, z: System, id: string, p: Path)
    requires PathsOk(s) && Forgotten(s, z, id) && p in s.st.sessions && s.owner[p] in s.r.transfers
    requires SessionSound(log, s, p, s.owner[p], s.r.transfers[s.owner[p]])
    requires s.st.saves[id] in z.renames ==>
               id in s.r.transfers && Finished(log, id, s.r.transfers[id])
    ensures SessionSound(log, z, p, s.owner[p], s.r.transfers[s.owner[p]])
  {
    assert s.owner[s.st.saves[id]] == id && Live(s, s.st.saves[id]);
    assert Live(z, p) == (Live(s, p) && p != s.st.saves[id]);
  }

  lemma CallTaken(log: set<Message>, s: System, r: Renderer)
    requires Sound(log, s) && TakesCalls(s.r, r)
    ensures Sound(log, s.(r := r))
  {
    forall x | x in r.transfers
      ensures OwnsTarget(s, x, r.transfers[x])
    {
      assert OwnsTarget(s, x, s.r.transfers[x]);
    }
    RendererKept(log, log, s, r);
  }

  lemma BeginAbortKeepsSound(log: set<Message>, s: System, id: string)
    requires Sound(log, s) && Enabled(s, MainAbort(id))
    ensures Sound(log, BeginAbort(s, id))
  {
    var rest := s.(r := s.r.(abortCalls := s.r.abortCalls - multiset{id}));
    CallTaken(log, s, rest.r);
    var key := SanitizeTransferKey(id);
    if FileStore.SanitizeTransferId(id).Some? && key in s.st.saves {
      UnlinkBegins(log, rest, key, s.st.saves[key]);
    }
  }

  lemma NotRenamed(log: set<Message>, s: System, key: string)
    requires Sound(log, s) && key in s.st.saves
    ensures s.st.saves[key] !in s.renames
  {
    var p := s.st.saves[key];
    assert Live(s, p);
    assert SessionSound(log, s, p, s.owner[p], s.r.transfers[s.owner[p]]);
  }

  lemma BeginCompleteKeepsSound(log: set<Message>, s: System, id: string)
    requires Sound(log, s) && Enabled(s, MainComplete(id))
    ensures Sound(log, BeginComplete(s, id))
  {
    var rest := s.r.(completeCalls := s.r.completeCalls - multiset{id});
    var verdict := CompleteCheck(s.st, id);
    if verdict.Unknown? {
      CallTaken(log, s, rest);
    } else {
      KeyIsId(log, s, id);
      CheckedPath(s.st, id);
      CompletionBegins(log, s, id, verdict.path, rest, verdict.Rename?);
    }
  }

  lemma CompletionBegins(log: set<Message>, s: System, id: string, path: Path, rest: Renderer, rename: bool)
    requires Sound(log, s) && id in s.r.transfers && id in s.st.saves && s.st.saves[id] == path
    requires TakesCalls(s.r, rest) && (rename ==> Finished(log, id, s.r.transfers[id]))
    ensures Sound(log, s.(r := rest, st := Forget(s.st, id), unlinks := if rename then s.unlinks else s.unlinks + {path},
                          renames := if rename then s.renames + {path} else s.renames))
  {
    if rename {
      RenameBegins(log, s, id, path);
      CallTaken(log, s.(st := Forget(s.st, id), renames := s.renames + {path}), rest);
    } else {
      UnlinkBegins(log, s, id, path);
      CallTaken(log, s.(st := Forget(s.st, id), unlinks := s.unlinks + {path}), rest);
    }
  }

  lemma CheckedPath(st: Store, id: string)
    requires SanitizeTransferKey(id) == id && !CompleteCheck(st, id).Unknown?
    ensures id in st.saves && st.saves[id] == CompleteCheck(st, id).path
  {
  }

  lemma RenameBegins(log: set<Message>, s: System, id: string, path: Path)
    requires Sound(log, s) && id in s.r.transfers && id in s.st.saves && s.st.saves[id] == path
    requires Finished(log, id, s.r.transfers[id])
    ensures Sound(log, s.(st := Forget(s.st, id), renames := s.renames + {path}))
  {
    ForgetKeepsSound(log, s, s.(st := Forget(s.st, id), renames := s.renames + {path}), id);
  }

  // Nothing is being written for a finished transfer.
  lemma FinishedIsIdle(t: Transfer)
    requires Counting(t) && t.receivedBytes == t.size
    ensures !Appending(t.call)
  {
  }

  lemma WrittenSession(log: set<Message>, s: System, id: string, p: Path)
    requires PathsOk(s) && Enabled(s, MainWritten(id, true)) && Counting(s.r.transfers[id])
    requires p == s.r.transfers[id].call.target && p in s.st.sessions
    requires SessionSound(log, s, p, id, s.r.transfers[id])
    ensures var z := EndWrite(s, id, true); SessionSound(log, z, p, id, z.r.transfers[id])
  {
    var z, t := EndWrite(s, id, true), s.r.transfers[id];
    FoldConcat(FNV_OFFSET, Content(s.st.files, TempOf(p)), t.call.chunk);
    assert Live(z, p) == Live(s, p);
  }

  lemma OtherSessionUnwritten(log: set<Message>, s: System, id: string, p: Path)
    requires PathsOk(s) && Enabled(s, MainWritten(id, true)) && p in s.st.sessions
    requires p != s.r.transfers[id].call.target && s.owner[p] != id && s.owner[p] in s.r.transfers
    requires SessionSound(log, s, p, s.owner[p], s.r.transfers[s.owner[p]])
    ensures var z := EndWrite(s, id, true); SessionSound(log, z, p, s.owner[p], z.r.transfers[s.owner[p]])
  {
    TempPathsDiffer(s, s.r.transfers[id].call.target);
    assert Live(EndWrite(s, id, true), p) == Live(s, p);
  }

  lemma WriteKeepsSound(log: set<Message>, s: System, id: string)
    requires Sound(log, s) && Bounded(s.r) && Enabled(s, MainWritten(id, true))
    ensures Sound(log, EndWrite(s, id, true))
  {
    var z, path := EndWrite(s, id, true), s.r.transfers[id].call.target;
    assert OwnsTarget(s, id, s.r.transfers[id]) && TransferBounded(s.r, id);
    WriteKeepsPaths(s, z, id);
    WriteKeepsCoupling(s, z, id);
    WriteKeepsRenderer(log, s, id);
    forall p | p in z.st.sessions
      ensures SessionSound(log, z, p, z.owner[p], z.r.transfers[z.owner[p]])
    {
      if p == path {
        WrittenSession(log, s, id, p);
      } else {
        OtherSessionUnwritten(log, s, id, p);
      }
    }
  }

  lemma WriteKeepsRenderer(log: set<Message>, s: System, id: string)
    requires RendererSound(log, s.r) && Enabled(s, MainWritten(id, true)) && Counting(s.r.transfers[id])
    ensures RendererSound(log, EndWrite(s, id, true).r)
  {
    var r := EndWrite(s, id, true).r;
    forall x | x in r.transfers
      ensures TransferSound(log, x, r.transfers[x])
    {
      assert TransferSound(log, x, s.r.transfers[x]);
    }
  }

  lemma FailedWriteKeepsSound(log: set<Message>, s: System, id: string)
    requires Sound(log, s) && Enabled(s, MainWritten(id, false))
    ensures Sound(log, EndWrite(s, id, false))
  {
    var c := s.r.transfers[id].call;
    assert TransferSound(log, id, s.r.transfers[id]);
    CallKeepsSound(log, s, id, AppendReply(c.index, c.chunk, false));
  }

  lemma EndWriteKeepsSound(log: set<Message>, s: System, id: string, ok: bool)
    requires Sound(log, s) && Bounded(s.r) && Enabled(s, MainWritten(id, ok))
    ensures Sound(log, EndWrite(s, id, ok))
  {
    if ok {
      WriteKeepsSound(log, s, id);
    } else {
      FailedWriteKeepsSound(log, s, id);
    }
  }

  lemma AllocateKeepsSound(log: set<Message>, s: System, id: string, path: Path)
    requires Sound(log, s) && Enabled(s, MainAllocated(id, Some(path)))
    ensures Sound(log, EndAllocate(s, id, Some(path)))
  {
    var z := EndAllocate(s, id, Some(path));
    KeyIsId(log, s, id);
    assert TransferSound(log, id, s.r.transfers[id]);
    assert forall p :: p in s.owner ==> s.owner[p] != id;
    AllocateKeepsPaths(s, z, id, path);
    AllocateKeepsCoupling(s, z, id, path);
    AllocateKeepsRenderer(log, s, id, path);
    forall p | p in z.st.sessions
      ensures SessionSound(log, z, p, z.owner[p], z.r.transfers[z.owner[p]])
    {
      if p == path {
        NewSession(log, s, id, path);
      } else {
        OtherSessionUnallocated(log, s, id, path, p);
      }
    }
  }

  lemma AllocateKeepsRenderer(log: set<Message>, s: System, id: string, path: Path)
    requires RendererSound(log, s.r) && Enabled(s, MainAllocated(id, Some(path)))
    ensures RendererSound(log, EndAllocate(s, id, Some(path)).r)
  {
    var r := EndAllocate(s, id, Some(path)).r;
    forall x | x in r.transfers
      ensures TransferSound(log, x, r.transfers[x])
    {
      assert TransferSound(log, x, s.r.transfers[x]);
    }
  }

  lemma NewSession(log: set<Message>, s: System, id: string, path: Path)
    requires PathsOk(s) && Enabled(s, MainAllocated(id, Some(path))) && TransferSound(log, id, s.r.transfers[id])
    requires path !in s.st.sessions && SanitizeTransferKey(id) == id
    ensures var z := EndAllocate(s, id, Some(path)); SessionSound(log, z, path, id, z.r.transfers[id])
  {
    assert |TempOf(path)| == |path| + 5;
    assert Fnv1a([]) == FNV_OFFSET;
  }

  lemma OtherSessionUnallocated(log: set<Message>, s: System, id: string, path: Path, p: Path)
    requires PathsOk(s) && Enabled(s, MainAllocated(id, Some(path))) && SanitizeTransferKey(id) == id
    requires p in s.st.sessions && s.owner[p] in s.r.transfers && s.owner[p] != id
    requires SessionSound(log, s, p, s.owner[p], s.r.transfers[s.owner[p]])
    ensures var z := EndAllocate(s, id, Some(path)); SessionSound(log, z, p, s.owner[p], z.r.transfers[s.owner[p]])
  {
    assert p != path && TempOf(p) != path;
    assert Live(EndAllocate(s, id, Some(path)), p) == Live(s, p);
  }

  lemma EndAllocateKeepsSound(log: set<Message>, s: System, id: string, place: Option<Path>)
    requires Sound(log, s) && Enabled(s, MainAllocated(id, place))
    ensures Sound(log, EndAllocate(s, id, place))
  {
    if place.Some? {
      AllocateKeepsSound(log, s, id, place.value);
    } else {
      assert TransferSound(log, id, s.r.transfers[id]);
      CallKeepsSound(log, s, id, StartReply(None));
    }
  }

  // Only the files and the operations waiting change.
  predicate FilesOnly(s: System, z: System) {
    && z == s.(st := s.st.(files := z.st.files), unlinks := z.unlinks, renames := z.renames, saved := z.saved)
    && s.st.sessions.Keys <= z.st.files.Keys
    && z.unlinks <= s.unlinks && z.renames <= s.renames && z.saved <= s.st.sessions.Keys
  }

  lemma FilesKeepSound(log: set<Message>, s: System, z: System)
    requires Sound(log, s) && FilesOnly(s, z)
    requires forall p :: p in s.st.sessions ==> SessionSound(log, z, p, s.owner[p], s.r.transfers[s.owner[p]])
    ensures Sound(log, z)
  {
    forall x | x in z.r.transfers
      ensures OwnsTarget(z, x, z.r.transfers[x])
    {
      assert OwnsTarget(s, x, s.r.transfers[x]);
    }
  }

  lemma EndRenameKeepsSound(log: set<Message>, s: System, path: Path, ok: bool)
    requires Sound(log, s) && path in s.renames
    ensures Sound(log, EndRename(s, path, ok))
  {
    var z := EndRename(s, path, ok);
    forall p | p in s.st.sessions
      ensures SessionSound(log, z, p, s.owner[p], s.r.transfers[s.owner[p]])
    {
      RenamedSession(log, s, path, ok, p);
    }
    FilesKeepSound(log, s, z);
  }

  lemma RenamedSession(log: set<Message>, s: System, path: Path, ok: bool, p: Path)
    requires PathsOk(s) && path in s.renames && p in s.st.sessions && s.owner[p] in s.r.transfers
    requires SessionSound(log, s, p, s.owner[p], s.r.transfers[s.owner[p]])
    ensures SessionSound(log, EndRename(s, path, ok), p, s.owner[p], s.r.transfers[s.owner[p]])
  {
    if ok && TempOf(path) in s.st.files {
      RenameTouchesOnePair(s, path);
    }
    assert Live(EndRename(s, path, ok), p) == Live(s, p);
  }

  lemma EndUnlinkKeepsSound(log: set<Message>, s: System, path: Path, ok: bool)
    requires Sound(log, s) && path in s.unlinks
    ensures Sound(log, EndUnlink(s, path, ok))
  {
    var z := EndUnlink(s, path, ok);
    UnlinkTouchesOneTemp(s, path);
    assert SessionSound(log, s, path, s.owner[path], s.r.transfers[s.owner[path]]);
    forall p | p in s.st.sessions
      ensures SessionSound(log, z, p, s.owner[p], s.r.transfers[s.owner[p]])
    {
      UnlinkedSession(log, s, path, ok, p);
    }
    FilesKeepSound(log, s, z);
  }

  lemma UnlinkedSession(log: set<Message>, s: System, path: Path, ok: bool, p: Path)
    requires PathsOk(s) && path in s.unlinks && p in s.st.sessions && s.owner[p] in s.r.transfers
    requires SessionSound(log, s, p, s.owner[p], s.r.transfers[s.owner[p]])
    ensures SessionSound(log, EndUnlink(s, path, ok), p, s.owner[p], s.r.transfers[s.owner[p]])
  {
    UnlinkTouchesOneTemp(s, path);
    assert Live(EndUnlink(s, path, ok), p) == Live(s, p);
  }

  lemma MainEventKeepsSound(log: set<Message>, s: System, e: Event)
    requires Sound(log, s) && Bounded(s.r) && Enabled(s, e) && AtMain(e)
    ensures Sound(log, ApplyMain(s, e))
  {
    match e
    case MainStart(id) => BeginStartKeepsSound(log, s, id);
    case MainAllocated(id, place) => EndAllocateKeepsSound(log, s, id, place);
    case MainAppend(id) => BeginAppendKeepsSound(log, s, id);
    case MainWritten(id, ok) => EndWriteKeepsSound(log, s, id, ok);
    case MainComplete(id) => BeginCompleteKeepsSound(log, s, id);
    case MainRenamed(path, ok) => EndRenameKeepsSound(log, s, path, ok);
    case MainAbort(id) => BeginAbortKeepsSound(log, s, id);
    case MainUnlinked(path, ok) => EndUnlinkKeepsSound(log, s, path, ok);
  }

  // ----- runs

  lemma {:induction false} SoundAlways(disk: Files, events: seq<Event>)
    requires Possible(Initial(disk), events)
    ensures Sound(Deliveries(events), After(Initial(disk), events))
  {
    if events != [] {
      var front, e := events[..|events| - 1], events[|events| - 1];
      SoundAlways(disk, front);
      BoundedAlways(disk, front);
      EventKeepsSound(Deliveries(front), Deliveries(events), After(Initial(disk), front), e);
    }
  }

  lemma DeliveryKeepsSound(log: set<Message>, more: set<Message>, s: System, m: Message)
    requires Sound(log, s) && Enabled(s, Deliver(m)) && more == log + Told(Deliver(m))
    ensures Sound(more, Apply(s, Deliver(m)))
  {
    DeliverKeepsSound(log, s, m);
  }

  lemma EventKeepsSound(log: set<Message>, more: set<Message>, s: System, e: Event)
    requires Sound(log, s) && Bounded(s.r) && Enabled(s, e) && more == log + Told(e)
    ensures Sound(more, Apply(s, e))
  {
    if e.Deliver? {
      DeliveryKeepsSound(log, more, s, e.m);
    } else {
      QuietEventKeepsSound(log, more, s, e);
    }
  }

  lemma QuietEventKeepsSound(log: set<Message>, more: set<Message>, s: System, e: Event)
    requires Sound(log, s) && Bounded(s.r) && Enabled(s, e) && !e.Deliver? && more == log + Told(e)
    ensures Sound(more, Apply(s, e))
  {
    assert more == log;
    OwnEventKeepsSound(log, s, e);
  }

  lemma OwnEventKeepsSound(log: set<Message>, s: System, e: Event)
    requires Sound(log, s) && Bounded(s.r) && Enabled(s, e) && !e.Deliver?
    ensures Sound(log, Apply(s, e))
  {
    if AtMain(e) {
      MainEventKeepsSound(log, s, e);
    } else if e.QueueAwaited? || e.TimerFires? || e.ChannelCloses? || e.Tick? {
      OtherEventKeepsSound(log, s, e);
    } else {
      QueueEventKeepsSound(log, s, e);
    }
  }

  /** In every run, whatever messages are delivered: a path reported as saved holds exactly as many
      bytes as a start message of its transfer announced, and their checksum is the one in a
      complete message of its transfer. */
  lemma SavedAsAnnounced(disk: Files, events: seq<Event>, p: Path)
    requires Possible(Initial(disk), events) && p in After(Initial(disk), events).saved
    ensures var s := After(Initial(disk), events);
      p in s.owner && p in s.st.files
      && (exists name :: Delivered(events, FileStart(s.owner[p], name, |s.st.files[p]|)))
      && Delivered(events, FileComplete(s.owner[p], FormatFileTransferChecksum(Fnv1a(s.st.files[p]))))
  {
    SoundAlways(disk, events);
    BoundedAlways(disk, events);
    var s, log := After(Initial(disk), events), Deliveries(events);
    var id := s.owner[p];
    var t := s.r.transfers[id];
    assert SessionSound(log, s, p, id, t) && TransferSound(log, id, t) && TransferBounded(s.r, id);
    FinishedIsIdle(t);
    var name :| FileStart(id, name, t.size) in log;
    DeliveriesAre(events, FileStart(id, name, t.size));
    DeliveriesAre(events, FileComplete(id, FormatFileTransferChecksum(t.checksum)));
  }

  predicate OneByteWrong(a: seq<byte>, b: seq<byte>, i: nat) {
    |a| == |b| && i < |a| && a[i] != b[i] && forall j :: 0 <= j < |a| && j != i ==> a[j] == b[j]
  }

  /** So when the complete messages that arrive carry the checksum of the sender's file, a copy of
      it with one wrong byte is never reported as saved, whatever else arrives. */
  lemma OneWrongByteIsNeverSaved(disk: Files, events: seq<Event>, p: Path, file: seq<byte>, i: nat)
    requires Possible(Initial(disk), events) && p in After(Initial(disk), events).saved
    requires var s := After(Initial(disk), events);
      p in s.owner && forall c :: Delivered(events, FileComplete(s.owner[p], c)) ==> c == FormatFileTransferChecksum(Fnv1a(file))
    ensures var s := After(Initial(disk), events); p in s.st.files && !OneByteWrong(file, s.st.files[p], i)
  {
    SavedAsAnnounced(disk, events, p);
    var saved := After(Initial(disk), events).st.files[p];
    FormatInjective(Fnv1a(saved), Fnv1a(file));
    if OneByteWrong(file, saved, i) {
      SingleByteChangeIsDetected(file, saved, i);
    }
  }
}
