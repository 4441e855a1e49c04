// The renderer and the main process together, as a state machine: any message, reply, timer,
// I/O outcome and interleaving of the handlers' parts is an event. The integrity theorem says
// that in every run, a file reported as saved has the sender's bytes.

module FileTransfer {
  import opened Basics
  import opened Checksum
  import opened DataChannel
  import opened FileStore
  import opened FileReceiver
  import opened FileSender
  import Base64

  // `owner` records which transfer a save session was made for. `unlinks` and `renames` are the
  // file operations that handlers are waiting for; `saved` are the final paths that a complete
  // call has returned as ok.
  datatype System = System(
    r: Renderer, st: Store, owner: map<Path, string>,
    unlinks: set<Path>, renames: set<Path>, saved: set<Path>)

  datatype Event =
    | Deliver(m: Message)
    | MainStart(id: string)
    | MainAllocated(id: string, place: Option<Path>)
    | StartReplied(id: string)
    | TaskStarts(id: string)
    | MainAppend(id: string)
    | MainWritten(id: string, ok: bool)
    | AppendReplied(id: string)
    | QueueAwaited(id: string, k: nat)
    | MainComplete(id: string)
    | MainRenamed(path: Path, ok: bool)
    | MainAbort(id: string)
    | MainUnlinked(path: Path, ok: bool)
    | TimerFires(id: string)
    | ChannelCloses
    | Tick(ms: nat)

  function Initial(files: Files): System {
    System(Renderer(map[], {}, multiset{}, multiset{}, 0), Store(map[], map[], files), map[], {}, {}, {})
  }

  function SetCall(s: System, id: string, call: Call): System
    requires id in s.r.transfers
  {
    s.(r := s.r.(transfers := s.r.transfers[id := s.r.transfers[id].(call := call)]))
  }

  // Exclusive creation finds nothing at `path`; and the standing assumption on temporary names:
  // nothing is at the session's temporary path, and no session's temporary path is another's
  // final path.
  predicate MayAllocate(s: System, path: Path) {
    && path !in s.st.files
    && TempOf(path) !in s.st.files
    && forall q :: q in s.st.sessions ==> path != TempOf(q)
  }

  // Transfer ids are fresh: a start message opens a transfer at most once. Sent again while the
  // transfer is registered, it is an event like any other.
  predicate FreshStart(s: System, m: Message) {
    m.FileStart? ==> m.transferId in s.r.transfers ==> m.transferId in s.r.registered
  }

  ghost predicate Enabled(s: System, e: Event) {
    match e
    case Deliver(m) => var checked := Sanitize(m); checked.Some? ==> FreshStart(s, checked.value)
    case MainStart(id) => id in s.r.transfers && s.r.transfers[id].call.StartSent?
    case MainAllocated(id, place) =>
      && id in s.r.transfers && s.r.transfers[id].call.StartAllocating?
      && (place.Some? ==> MayAllocate(s, place.value))
    case StartReplied(id) => id in s.r.transfers && s.r.transfers[id].call.StartReply?
    case TaskStarts(id) => TaskReady(s.r, id)
    case MainAppend(id) => id in s.r.transfers && s.r.transfers[id].call.AppendSent?
    case MainWritten(id, _) =>
      && id in s.r.transfers && s.r.transfers[id].call.AppendWriting?
      && s.r.transfers[id].call.target in s.st.sessions
    case AppendReplied(id) => id in s.r.transfers && s.r.transfers[id].call.AppendReply?
    case QueueAwaited(id, k) => WaiterReady(s.r, id, k)
    case MainComplete(id) => id in s.r.completeCalls
    case MainRenamed(path, _) => path in s.renames
    case MainAbort(id) => id in s.r.abortCalls
    case MainUnlinked(path, _) => path in s.unlinks
    case TimerFires(id) => TimerDue(s.r, id)
    case ChannelCloses => true
    case Tick(ms) => MayPass(s.r, ms)
  }

  // The part of an append call that the main process does at once.
  ghost function BeginAppend(s: System, id: string): System
    requires Enabled(s, MainAppend(id))
  {
    var c := s.r.transfers[id].call;
    match AppendCheck(s.st, id, c.index, c.chunk)
    case Refused => SetCall(s, id, AppendReply(c.index, c.chunk, false))
    case Write(path) => SetCall(s, id, AppendWriting(c.index, c.chunk, path))
    case Overflow(path) =>
      SetCall(s, id, AppendReply(c.index, c.chunk, false))
        .(st := Forget(s.st, SanitizeTransferKey(id)), unlinks := s.unlinks + {path})
  }

  // The key under which the main process looks a transfer up.
  function SanitizeTransferKey(id: string): string {
    var key := FileStore.SanitizeTransferId(id);
    if key.Some? then key.value else id
  }

  ghost function BeginComplete(s: System, id: string): System
    requires Enabled(s, MainComplete(id))
  {
    var rest := s.(r := s.r.(completeCalls := s.r.completeCalls - multiset{id}));
    match CompleteCheck(s.st, id)
    case Unknown => rest
    case Incomplete(path) => rest.(st := Forget(s.st, SanitizeTransferKey(id)), unlinks := s.unlinks + {path})
    case Rename(path) => rest.(st := Forget(s.st, SanitizeTransferKey(id)), renames := s.renames + {path})
  }

  ghost function BeginAbort(s: System, id: string): System
    requires Enabled(s, MainAbort(id))
  {
    var rest := s.(r := s.r.(abortCalls := s.r.abortCalls - multiset{id}));
    var key := SanitizeTransferKey(id);
    if FileStore.SanitizeTransferId(id).None? || key !in s.st.saves then rest
    else rest.(st := Forget(s.st, key), unlinks := s.unlinks + {s.st.saves[key]})
  }

  ghost function EndWrite(s: System, id: string, ok: bool): System
    requires Enabled(s, MainWritten(id, ok))
  {
    var c := s.r.transfers[id].call;
    var replied := SetCall(s, id, AppendReply(c.index, c.chunk, ok));
    if ok then replied.(st := AppendFinish(s.st, c.target, c.chunk)) else replied
  }

  function EndRename(s: System, path: Path, ok: bool): System
    requires path in s.renames
  {
    var rest := s.(renames := s.renames - {path});
    if ok && TempOf(path) in s.st.files then rest.(st := RenameFinish(s.st, path), saved := s.saved + {path})
    else rest
  }

  ghost function EndAllocate(s: System, id: string, place: Option<Path>): System
    requires Enabled(s, MainAllocated(id, place))
  {
    var replied := SetCall(s, id, StartReply(place));
    match place
    case None => replied
    case Some(p) =>
      replied.(st := StartFinish(s.st, SanitizeTransferKey(id), s.r.transfers[id].size, p),
               owner := s.owner[p := id])
  }

  predicate AtMain(e: Event) {
    e.MainStart? || e.MainAllocated? || e.MainAppend? || e.MainWritten? || e.MainComplete? || e.MainRenamed?
    || e.MainAbort? || e.MainUnlinked?
  }

  ghost function BeginStart(s: System, id: string): System
    requires Enabled(s, MainStart(id))
  {
    if StartAccepted(s.st, id, s.r.transfers[id].name, s.r.transfers[id].size)
    then SetCall(s, id, StartAllocating) else SetCall(s, id, StartReply(None))
  }

  ghost function EndUnlink(s: System, path: Path, ok: bool): System {
    var rest := s.(unlinks := s.unlinks - {path});
    if ok then rest.(st := UnlinkFinish(s.st, path)) else rest
  }

  ghost function ApplyMain(s: System, e: Event): System
    requires Enabled(s, e) && AtMain(e)
  {
    match e
    case MainStart(id) => BeginStart(s, id)
    case MainAllocated(id, place) => EndAllocate(s, id, place)
    case MainAppend(id) => BeginAppend(s, id)
    case MainWritten(id, ok) => EndWrite(s, id, ok)
    case MainComplete(id) => BeginComplete(s, id)
    case MainRenamed(path, ok) => EndRename(s, path, ok)
    case MainAbort(id) => BeginAbort(s, id)
    case MainUnlinked(path, ok) => EndUnlink(s, path, ok)
  }

  ghost function DeliverTo(r: Renderer, m: Message): Renderer {
    var checked := Sanitize(m);
    if checked.None? then r else Receive(r, checked.value)
  }

  ghost function ApplyRenderer(s: System, e: Event): Renderer
    requires Enabled(s, e) && !AtMain(e)
  {
    match e
    case Deliver(m) => DeliverTo(s.r, m)
    case StartReplied(id) => FileReceiver.StartReplied(s.r, id)
    case TaskStarts(id) => RunTask(s.r, id)
    case AppendReplied(id) => FileReceiver.AppendReplied(s.r, id)
    case QueueAwaited(id, k) => FinishWaiting(s.r, id, k)
    case TimerFires(id) => TimeOut(s.r, id)
    case ChannelCloses => Interrupt(s.r)
    case Tick(ms) => s.r.(now := s.r.now + ms)
  }

  ghost function Apply(s: System, e: Event): System
    requires Enabled(s, e)
  {
    if AtMain(e) then ApplyMain(s, e) else s.(r := ApplyRenderer(s, e))
  }

  // ----- the invariant of the integrity theorem

  // `files` gives, for each transfer id, the file its sender reads.
  ghost predicate ProperFiles(files: map<string, seq<byte>>) {
    forall id :: id in files ==> IsToken(id, DataChannel.MAX_TRANSFER_ID_LENGTH) && |files[id]| <= MAX_FILE_TRANSFER_BYTES
  }

  // A message that `sendFile` sends for some transfer: the network may lose it, repeat it, delay
  // it, or let it overtake others, but does not change it.
  ghost predicate Genuine(files: map<string, seq<byte>>, m: Message) {
    && m.transferId in files
    && var file := files[m.transferId];
       match m
       case FileStart(_, _, size) => size == |file|
       case FileChunk(id, index, _) => 0 <= index < ChunkCount(|file|) && m == ChunkMessage(id, file, index)
       case FileComplete(id, _) => m == CompleteMessage(id, file)
       case FileAbort(_) => true
  }

  ghost predicate CallOk(file: seq<byte>, t: Transfer) {
    match t.call
    case AppendSent(i, chunk) => i == t.nextChunkIndex < ChunkCount(|file|) && chunk == Chunk(file, i)
    case AppendWriting(i, chunk, _) => i == t.nextChunkIndex < ChunkCount(|file|) && chunk == Chunk(file, i)
    case AppendReply(i, chunk, _) => i == t.nextChunkIndex < ChunkCount(|file|) && chunk == Chunk(file, i)
    case _ => true
  }

  ghost predicate TaskOk(file: seq<byte>, task: Task) {
    0 <= task.index < ChunkCount(|file|) && task.data == Base64.Encode(Chunk(file, task.index))
  }

  // The renderer has counted and folded exactly the first `nextChunkIndex` chunks.
  ghost predicate TransferOk(file: seq<byte>, t: Transfer) {
    && t.size == |file|
    && t.nextChunkIndex <= ChunkCount(|file|)
    && t.receivedBytes == Offset(|file|, t.nextChunkIndex) <= |file|
    && t.checksum == Fnv1a(file[..t.receivedBytes])
    && (forall i :: 0 <= i < |t.queue| ==> TaskOk(file, t.queue[i]))
    && (Starting(t) ==> t.nextChunkIndex == 0)
    && CallOk(file, t)
  }

  predicate Live(s: System, p: Path) {
    p in s.owner && s.owner[p] in s.st.saves && s.st.saves[s.owner[p]] == p
  }

  // A session has counted exactly the first `expectedChunkIndex` chunks of its owner's file, and
  // they are what its temporary file holds while it is live or being renamed.
  ghost predicate SessionOk(file: seq<byte>, s: System, p: Path)
    requires p in s.st.sessions
  {
    var session := s.st.sessions[p];
    && session.expectedSize == |file|
    && session.expectedChunkIndex <= ChunkCount(|file|)
    && session.receivedBytes == Offset(|file|, session.expectedChunkIndex) <= |file|
    && (Live(s, p) || p in s.renames ==> Content(s.st.files, TempOf(p)) == file[..session.receivedBytes])
    && (p in s.renames ==> session.receivedBytes == |file| && !Live(s, p))
    && (p in s.unlinks ==> !Live(s, p) && p !in s.renames)
    && (p in s.saved ==> !Live(s, p) && p !in s.renames && Content(s.st.files, p) == file)
  }

  ghost predicate PathsOk(s: System) {
    && s.owner.Keys == s.st.sessions.Keys
    && s.st.sessions.Keys <= s.st.files.Keys
    && s.unlinks <= s.st.sessions.Keys && s.renames <= s.st.sessions.Keys && s.saved <= s.st.sessions.Keys
    && (forall id :: id in s.st.saves ==> s.st.saves[id] in s.owner && s.owner[s.st.saves[id]] == id)
    && (forall p, q :: p in s.st.sessions && q in s.st.sessions ==> p != TempOf(q))
  }

  ghost predicate TransfersOk(files: map<string, seq<byte>>, transfers: map<string, Transfer>) {
    forall id :: id in transfers ==> id in files && TransferOk(files[id], transfers[id])
  }

  // How many chunks the main process has written for this transfer, as far as the renderer's
  // counter and a reply still on its way tell.
  function Progress(t: Transfer): nat {
    t.nextChunkIndex + if t.call.AppendReply? && t.call.ok then 1 else 0
  }

  predicate Starting(t: Transfer) { t.call.StartSent? || t.call.StartAllocating? }

  // The two processes agree: a session belongs to one transfer, which has been answered, and the
  // session has counted as many chunks as the renderer.
  ghost predicate Coupled(s: System) {
    && (forall p :: p in s.owner && p in s.st.sessions ==>
          && s.owner[p] in s.r.transfers
          && !Starting(s.r.transfers[s.owner[p]])
          && s.st.sessions[p].expectedChunkIndex == Progress(s.r.transfers[s.owner[p]]))
    && (forall p, q :: p in s.owner && q in s.owner && s.owner[p] == s.owner[q] ==> p == q)
    && (forall id :: id in s.r.transfers ==> OwnsTarget(s, id, s.r.transfers[id]))
  }

  ghost predicate SessionsOk(files: map<string, seq<byte>>, s: System) {
    forall p :: p in s.st.sessions ==> p in s.owner && s.owner[p] in files && SessionOk(files[s.owner[p]], s, p)
  }

  ghost predicate Inv(files: map<string, seq<byte>>, s: System) {
    PathsOk(s) && TransfersOk(files, s.r.transfers) && Coupled(s) && SessionsOk(files, s)
  }

  // ----- steps of the renderer alone

  predicate SameFooting(t: Transfer, u: Transfer) {
    Progress(u) == Progress(t) && (Starting(u) ==> Starting(t))
  }

  // What a transfer is writing belongs to it.
  predicate OwnsTarget(s: System, id: string, t: Transfer) {
    t.call.AppendWriting? ==> t.call.target in s.owner && s.owner[t.call.target] == id
  }

  lemma RendererAlone(files: map<string, seq<byte>>, s: System, r: Renderer)
    requires Inv(files, s)
    requires s.r.transfers.Keys <= r.transfers.Keys
    requires TransfersOk(files, r.transfers)
    requires forall id :: id in r.transfers ==>
               OwnsTarget(s, id, r.transfers[id])
               && (id in s.r.transfers ==> SameFooting(s.r.transfers[id], r.transfers[id]))
    ensures Inv(files, s.(r := r))
  {
    var z := s.(r := r);
    forall p | p in z.st.sessions
      ensures p in z.owner && z.owner[p] in files && SessionOk(files[z.owner[p]], z, p)
    {
      SessionIgnoresRenderer(files[s.owner[p]], s, z, p);
    }
    CouplingOfRendererAlone(s, r);
  }

  lemma SessionIgnoresRenderer(file: seq<byte>, s: System, z: System, p: Path)
    requires p in s.st.sessions && SessionOk(file, s, p)
    requires z == s.(r := z.r)
    ensures SessionOk(file, z, p)
  {
    assert Live(z, p) == Live(s, p);
  }

  lemma CouplingOfRendererAlone(s: System, r: Renderer)
    requires Coupled(s) && s.r.transfers.Keys <= r.transfers.Keys
    requires forall id :: id in r.transfers ==>
               OwnsTarget(s, id, r.transfers[id])
               && (id in s.r.transfers ==> SameFooting(s.r.transfers[id], r.transfers[id]))
    ensures Coupled(s.(r := r))
  {
    var z := s.(r := r);
    forall id | id in z.r.transfers
      ensures OwnsTarget(z, id, z.r.transfers[id])
    {
      assert OwnsTarget(s, id, r.transfers[id]);
    }
  }

  // One transfer changes from t to u.
  ghost predicate Follows(file: seq<byte>, r: Renderer, z: Renderer, id: string)
    requires id in r.transfers
  {
    && id in z.transfers
    && z.transfers == r.transfers[id := z.transfers[id]]
    && SameFooting(r.transfers[id], z.transfers[id])
    && (z.transfers[id].call.AppendWriting? ==> z.transfers[id].call == r.transfers[id].call)
    && TransferOk(file, z.transfers[id])
  }

  lemma OneTransferAlone(files: map<string, seq<byte>>, s: System, r: Renderer, id: string)
    requires Inv(files, s)
    requires id in s.r.transfers && id in files && Follows(files[id], s.r, r, id)
    ensures Inv(files, s.(r := r))
  {
    RendererAlone(files, s, r);
  }

  lemma FailFollows(file: seq<byte>, r: Renderer, id: string)
    requires id in r.transfers && TransferOk(file, r.transfers[id])
    ensures Follows(file, r, Fail(r, id), id)
  {
    assert r.transfers == r.transfers[id := r.transfers[id]];
  }

  lemma RejectFollows(file: seq<byte>, r: Renderer, id: string)
    requires id in r.transfers && TransferOk(file, r.transfers[id])
    requires r.transfers[id].call.AppendReply? ==> !r.transfers[id].call.ok
    ensures Follows(file, r, Reject(r, id), id)
  {
    var t := r.transfers[id];
    var cut := r.(transfers := r.transfers[id := t.(rejected := true, call := NoCall, queue := [])]);
    assert TransferOk(file, cut.transfers[id]);
    FailFollows(file, cut, id);
  }

  lemma EnqueueFollows(file: seq<byte>, r: Renderer, id: string, index: int, data: string)
    requires id in r.transfers && TransferOk(file, r.transfers[id])
    requires TaskOk(file, Task(index, data))
    ensures Follows(file, r, Enqueue(r, id, index, data), id)
  {
    assert r.transfers == r.transfers[id := r.transfers[id]];
  }

  lemma AwaitFollows(file: seq<byte>, r: Renderer, id: string, checksum: string)
    requires id in r.transfers && TransferOk(file, r.transfers[id])
    ensures Follows(file, r, AwaitQueue(r, id, checksum), id)
  {
    assert r.transfers == r.transfers[id := r.transfers[id]];
  }

  lemma FinishWaitingFollows(file: seq<byte>, r: Renderer, id: string, k: nat)
    requires WaiterReady(r, id, k) && TransferOk(file, r.transfers[id])
    ensures Follows(file, r, FinishWaiting(r, id, k), id)
  {
  }

  lemma TimeOutFollows(file: seq<byte>, r: Renderer, id: string)
    requires TimerDue(r, id) && TransferOk(file, r.transfers[id])
    ensures Follows(file, r, TimeOut(r, id), id)
  {
    var quiet := r.(transfers := r.transfers[id := r.transfers[id].(deadline := None)]);
    assert TransferOk(file, quiet.transfers[id]);
    FailFollows(file, quiet, id);
  }

  lemma StartRepliedFollows(file: seq<byte>, r: Renderer, id: string)
    requires id in r.transfers && r.transfers[id].call.StartReply? && TransferOk(file, r.transfers[id])
    ensures Follows(file, r, FileReceiver.StartReplied(r, id), id)
  {
    if r.transfers[id].call.path.None? {
      RejectFollows(file, r, id);
    }
  }

  lemma AppendRepliedFollows(file: seq<byte>, r: Renderer, id: string)
    requires id in r.transfers && r.transfers[id].call.AppendReply? && TransferOk(file, r.transfers[id])
    ensures Follows(file, r, FileReceiver.AppendReplied(r, id), id)
  {
    var t := r.transfers[id];
    if !t.call.ok {
      RejectFollows(file, r, id);
    } else {
      var i := t.nextChunkIndex;
      ChunkLength(file, i);
      PrefixGrowsByChunk(file, i);
      FoldConcat(FNV_OFFSET, file[..t.receivedBytes], t.call.chunk);
      assert TransferOk(file, FileReceiver.AppendReplied(r, id).transfers[id]);
    }
  }

  lemma RunTaskFollows(file: seq<byte>, r: Renderer, id: string)
    requires TaskReady(r, id) && TransferOk(file, r.transfers[id])
    ensures Follows(file, r, RunTask(r, id), id)
  {
    var t := r.transfers[id];
    var task := t.queue[0];
    assert TaskOk(file, task);
    if t.failed {
    } else if task.index != t.nextChunkIndex {
      RejectFollows(file, r, id);
    } else {
      Base64.RoundTrip(Chunk(file, task.index));
      if t.receivedBytes + |Chunk(file, task.index)| > t.size {
        RejectFollows(file, r, id);
      }
    }
  }

  lemma BeginKeepsInv(files: map<string, seq<byte>>, s: System, id: string, name: string)
    requires Inv(files, s) && id in files && |files[id]| <= MAX_FILE_TRANSFER_BYTES
    requires id in s.r.transfers ==> id in s.r.registered
    ensures Inv(files, s.(r := Begin(s.r, id, name, |files[id]|)))
  {
    assert files[id][..0] == [];
    RendererAlone(files, s, Begin(s.r, id, name, |files[id]|));
  }

  lemma TimerDoesNotCount(file: seq<byte>, t: Transfer, deadline: Option<nat>)
    requires TransferOk(file, t)
    ensures TransferOk(file, t.(deadline := deadline)) && SameFooting(t, t.(deadline := deadline))
  {
  }

  lemma InterruptKeepsInv(files: map<string, seq<byte>>, s: System)
    requires Inv(files, s)
    ensures Inv(files, s.(r := Interrupt(s.r)))
  {
    var r := Interrupt(s.r);
    forall id | id in r.transfers
      ensures id in files && TransferOk(files[id], r.transfers[id])
      ensures SameFooting(s.r.transfers[id], r.transfers[id]) && OwnsTarget(s, id, r.transfers[id])
    {
      assert OwnsTarget(s, id, s.r.transfers[id]);
      TimerDoesNotCount(files[id], s.r.transfers[id], r.transfers[id].deadline);
    }
    RendererAlone(files, s, r);
  }

  lemma ReceiveKeepsInv(files: map<string, seq<byte>>, s: System, m: Message)
    requires Inv(files, s) && ProperFiles(files) && Genuine(files, m) && FreshStart(s, m)
    ensures Inv(files, s.(r := Receive(s.r, m)))
  {
    var id := m.transferId;
    if m.FileStart? {
      BeginKeepsInv(files, s, id, m.name);
    } else if id in s.r.transfers {
      ReceiveFollows(files[id], s.r, m);
      OneTransferAlone(files, s, Receive(s.r, m), id);
    } else {
      assert Receive(s.r, m) == s.r && s.(r := s.r) == s;
    }
  }

  lemma ReceiveFollows(file: seq<byte>, r: Renderer, m: Message)
    requires m.transferId in r.transfers && TransferOk(file, r.transfers[m.transferId])
    requires !m.FileStart?
    requires m.FileChunk? ==> TaskOk(file, Task(m.index, m.data))
    ensures Follows(file, r, Receive(r, m), m.transferId)
  {
    match m
    case FileChunk(id, index, data) => EnqueueFollows(file, r, id, index, data);
    case FileComplete(id, checksum) => AwaitFollows(file, r, id, checksum);
    case FileAbort(id) => FailFollows(file, r, id);
  }

  // A genuine message is what the receiver acts on: its validators change nothing.
  lemma GenuineIsSanitary(files: map<string, seq<byte>>, m: Message)
    requires ProperFiles(files) && Genuine(files, m)
    ensures Sanitize(m).Some? ==> Sanitize(m).value == m
  {
    var id := m.transferId;
    DataChannel.SanitizeTokenId(id);
    match m
    case FileChunk(_, index, _) => ChunkPassesSanitizer(id, files[id], index);
    case FileComplete(_, _) => CompletePassesSanitizer(id, files[id]);
    case _ =>
  }

  // ----- steps of the main process

  // A call moves on without writing: the counters stay.
  lemma SetCallKeepsInv(files: map<string, seq<byte>>, s: System, id: string, call: Call)
    requires Inv(files, s) && id in s.r.transfers
    requires SameFooting(s.r.transfers[id], s.r.transfers[id].(call := call))
    requires CallOk(files[id], s.r.transfers[id].(call := call))
    requires OwnsTarget(s, id, s.r.transfers[id].(call := call))
    ensures Inv(files, SetCall(s, id, call))
  {
    RendererAlone(files, s, s.r.(transfers := s.r.transfers[id := s.r.transfers[id].(call := call)]));
  }

  // A session stops being live: its handler goes on to unlink or to rename its temporary file.
  predicate Forgotten(s: System, z: System, id: string) {
    && id in s.st.saves
    && z == s.(st := Forget(s.st, id), unlinks := z.unlinks, renames := z.renames)
    && ( || (z.unlinks == s.unlinks + {s.st.saves[id]} && z.renames == s.renames)
         || (z.unlinks == s.unlinks && z.renames == s.renames + {s.st.saves[id]}))
  }

  lemma ForgetKeepsSession(file: seq<byte>, s: System, z: System, id: string, p: Path)
    requires PathsOk(s) && Forgotten(s, z, id)
    requires p in s.st.sessions && SessionOk(file, s, p)
    requires s.st.saves[id] in z.renames ==>
               s.st.sessions[s.st.saves[id]].receivedBytes == s.st.sessions[s.st.saves[id]].expectedSize
    ensures SessionOk(file, z, p)
  {
    var path := s.st.saves[id];
    assert s.owner[path] == id && Live(s, path);
    if p == path {
      assert !Live(z, p);
    } else {
      assert Live(z, p) == Live(s, p);
    }
  }

  lemma ForgetKeepsInv(files: map<string, seq<byte>>, s: System, z: System, id: string)
    requires Inv(files, s) && Forgotten(s, z, id)
    requires s.st.saves[id] in z.renames ==>
               s.st.sessions[s.st.saves[id]].receivedBytes == s.st.sessions[s.st.saves[id]].expectedSize
    ensures Inv(files, z)
  {
    forall p | p in z.st.sessions
      ensures p in z.owner && z.owner[p] in files && SessionOk(files[z.owner[p]], z, p)
    {
      ForgetKeepsSession(files[s.owner[p]], s, z, id, p);
    }
  }

  // The files may change wherever no session is concerned.
  ghost predicate FilesChanged(files: map<string, seq<byte>>, s: System, z: System) {
    && z == s.(st := s.st.(files := z.st.files), unlinks := z.unlinks, renames := z.renames, saved := z.saved)
    && s.st.sessions.Keys <= z.st.files.Keys
    && z.unlinks <= s.unlinks && z.renames <= s.renames && z.saved <= s.st.sessions.Keys
    && (forall p :: p in s.st.sessions && (Live(s, p) || p in z.renames) ==>
          Content(z.st.files, TempOf(p)) == Content(s.st.files, TempOf(p)))
    && (forall p :: p in s.saved ==> p in z.saved && Content(z.st.files, p) == Content(s.st.files, p))
    && forall p :: p in z.saved && p !in s.saved ==>
         p in s.renames && p !in z.renames && p in s.owner && s.owner[p] in files
         && Content(z.st.files, p) == files[s.owner[p]]
  }

  lemma FilesChangeKeepsSession(files: map<string, seq<byte>>, s: System, z: System, p: Path)
    requires Inv(files, s) && FilesChanged(files, s, z) && p in s.st.sessions
    ensures p in z.owner && z.owner[p] in files && SessionOk(files[z.owner[p]], z, p)
  {
    assert SessionOk(files[s.owner[p]], s, p);
    assert Live(z, p) == Live(s, p);
  }

  lemma FilesChangeKeepsPaths(files: map<string, seq<byte>>, s: System, z: System)
    requires Inv(files, s) && FilesChanged(files, s, z)
    ensures PathsOk(z) && Coupled(z)
  {
  }

  lemma FilesChangeKeepsInv(files: map<string, seq<byte>>, s: System, z: System)
    requires Inv(files, s) && FilesChanged(files, s, z)
    ensures Inv(files, z)
  {
    FilesChangeKeepsPaths(files, s, z);
    forall p | p in z.st.sessions
      ensures p in z.owner && z.owner[p] in files && SessionOk(files[z.owner[p]], z, p)
    {
      FilesChangeKeepsSession(files, s, z, p);
    }
  }

  lemma TempPathsDiffer(s: System, path: Path)
    requires PathsOk(s) && path in s.st.sessions
    ensures forall p :: p in s.st.sessions && p != path ==> TempOf(p) != TempOf(path)
    ensures forall p :: p in s.st.sessions ==> p != TempOf(path) && TempOf(p) != path
  {
    forall p | p in s.st.sessions && TempOf(p) == TempOf(path)
      ensures p == path
    {
      TempOfInjective(p, path);
    }
  }

  lemma UnlinkFailsKeepsInv(files: map<string, seq<byte>>, s: System, path: Path)
    requires Inv(files, s) && path in s.unlinks
    ensures Inv(files, s.(unlinks := s.unlinks - {path}))
  {
    FilesChangeKeepsInv(files, s, s.(unlinks := s.unlinks - {path}));
  }

  lemma UnlinkKeepsInv(files: map<string, seq<byte>>, s: System, path: Path)
    requires Inv(files, s) && path in s.unlinks
    ensures Inv(files, s.(unlinks := s.unlinks - {path}, st := UnlinkFinish(s.st, path)))
  {
    UnlinkTouchesOneTemp(s, path);
    assert SessionOk(files[s.owner[path]], s, path);
    FilesChangeKeepsInv(files, s, s.(unlinks := s.unlinks - {path}, st := UnlinkFinish(s.st, path)));
  }

  lemma UnlinkTouchesOneTemp(s: System, path: Path)
    requires PathsOk(s) && path in s.st.sessions
    ensures var after := UnlinkFinish(s.st, path).files;
      && s.st.sessions.Keys <= after.Keys
      && (forall p :: p in s.st.sessions ==> Content(after, p) == Content(s.st.files, p))
      && (forall p :: p in s.st.sessions && p != path ==> Content(after, TempOf(p)) == Content(s.st.files, TempOf(p)))
  {
    TempPathsDiffer(s, path);
  }

  lemma RenameTouchesOnePair(s: System, path: Path)
    requires PathsOk(s) && path in s.st.sessions && TempOf(path) in s.st.files
    ensures var after := RenameFinish(s.st, path).files;
      && s.st.sessions.Keys <= after.Keys
      && (forall p :: p in s.st.sessions && p != path ==>
            Content(after, p) == Content(s.st.files, p) && Content(after, TempOf(p)) == Content(s.st.files, TempOf(p)))
  {
    TempPathsDiffer(s, path);
  }

  lemma RenameFailsKeepsInv(files: map<string, seq<byte>>, s: System, path: Path)
    requires Inv(files, s) && path in s.renames
    ensures Inv(files, s.(renames := s.renames - {path}))
  {
    FilesChangeKeepsInv(files, s, s.(renames := s.renames - {path}));
  }

  // A session to be renamed holds the whole file, so that is what arrives at the final path.
  lemma RenamedContent(files: map<string, seq<byte>>, s: System, path: Path)
    requires Inv(files, s) && path in s.renames && TempOf(path) in s.st.files
    ensures RenameFinish(s.st, path).files[path] == files[s.owner[path]]
  {
    var file := files[s.owner[path]];
    assert SessionOk(file, s, path);
    assert file[..|file|] == file;
  }

  lemma RenameKeepsInv(files: map<string, seq<byte>>, s: System, path: Path)
    requires Inv(files, s) && path in s.renames && TempOf(path) in s.st.files
    ensures Inv(files, s.(renames := s.renames - {path}, st := RenameFinish(s.st, path), saved := s.saved + {path}))
  {
    RenameTouchesOnePair(s, path);
    RenamedContent(files, s, path);
    var z := s.(renames := s.renames - {path}, st := RenameFinish(s.st, path), saved := s.saved + {path});
    forall p | p in s.saved
      ensures p != path
    {
      assert SessionOk(files[s.owner[p]], s, p);
    }
    assert SessionOk(files[s.owner[path]], s, path);
    FilesChangeKeepsInv(files, s, z);
  }

  // An append lands: one more chunk in the temporary file, counted by the session.
  ghost predicate Wrote(s: System, z: System, id: string) {
    && Enabled(s, MainWritten(id, true))
    && z == EndWrite(s, id, true)
  }

  lemma WriteKeepsOwnSession(file: seq<byte>, s: System, z: System, id: string)
    requires PathsOk(s) && Wrote(s, z, id)
    requires TransferOk(file, s.r.transfers[id])
    requires SessionOk(file, s, s.r.transfers[id].call.target)
    requires s.st.sessions[s.r.transfers[id].call.target].expectedChunkIndex == s.r.transfers[id].call.index
    ensures SessionOk(file, z, s.r.transfers[id].call.target)
  {
    var p, i := s.r.transfers[id].call.target, s.r.transfers[id].call.index;
    assert Live(z, p) == Live(s, p);
    OffsetGrows(|file|, i);
    PrefixGrowsByChunk(file, i);
    ChunkLength(file, i);
  }

  lemma WriteKeepsOtherSession(file: seq<byte>, s: System, z: System, id: string, p: Path)
    requires PathsOk(s) && Wrote(s, z, id)
    requires p in s.st.sessions && p != s.r.transfers[id].call.target && SessionOk(file, s, p)
    ensures SessionOk(file, z, p)
  {
    TempPathsDiffer(s, s.r.transfers[id].call.target);
    assert Live(z, p) == Live(s, p);
  }

  lemma WriteKeepsCoupling(s: System, z: System, id: string)
    requires PathsOk(s) && Coupled(s) && Wrote(s, z, id) && OwnsTarget(s, id, s.r.transfers[id])
    ensures Coupled(z)
  {
    forall other | other in z.r.transfers
      ensures OwnsTarget(z, other, z.r.transfers[other])
    {
      assert OwnsTarget(s, other, s.r.transfers[other]);
    }
    forall p | p in z.owner && p in z.st.sessions
      ensures z.owner[p] in z.r.transfers && !Starting(z.r.transfers[z.owner[p]])
      ensures z.st.sessions[p].expectedChunkIndex == Progress(z.r.transfers[z.owner[p]])
    {
      assert s.owner[p] == id ==> p == s.r.transfers[id].call.target;
    }
  }

  lemma WriteKeepsInv(files: map<string, seq<byte>>, s: System, id: string)
    requires Inv(files, s) && Enabled(s, MainWritten(id, true))
    ensures Inv(files, EndWrite(s, id, true))
  {
    var z := EndWrite(s, id, true);
    assert OwnsTarget(s, id, s.r.transfers[id]);
    WriteKeepsCoupling(s, z, id);
    WriteKeepsSessions(files, s, z, id);
    WriteKeepsTransfers(files, s, z, id);
    WriteKeepsPaths(s, z, id);
  }

  lemma WriteKeepsPaths(s: System, z: System, id: string)
    requires PathsOk(s) && Wrote(s, z, id)
    ensures PathsOk(z)
  {
  }

  lemma WriteKeepsTransfers(files: map<string, seq<byte>>, s: System, z: System, id: string)
    requires TransfersOk(files, s.r.transfers) && Wrote(s, z, id)
    ensures TransfersOk(files, z.r.transfers)
  {
    assert TransferOk(files[id], s.r.transfers[id]);
  }

  lemma WriteKeepsSessions(files: map<string, seq<byte>>, s: System, z: System, id: string)
    requires Inv(files, s) && Wrote(s, z, id) && OwnsTarget(s, id, s.r.transfers[id])
    ensures SessionsOk(files, z)
  {
    forall p | p in z.st.sessions
      ensures p in z.owner && z.owner[p] in files && SessionOk(files[z.owner[p]], z, p)
    {
      if p == s.r.transfers[id].call.target {
        WriteKeepsOwnSession(files[id], s, z, id);
      } else {
        WriteKeepsOtherSession(files[s.owner[p]], s, z, id, p);
      }
    }
  }

  // A session is allocated: its own path was free, and nothing else is touched.
  ghost predicate Allocated(s: System, z: System, id: string, path: Path) {
    && Enabled(s, MainAllocated(id, Some(path)))
    && z == EndAllocate(s, id, Some(path))
    && SanitizeTransferKey(id) == id
  }

  lemma AllocateKeepsOtherSession(file: seq<byte>, s: System, z: System, id: string, path: Path, p: Path)
    requires PathsOk(s) && Allocated(s, z, id, path)
    requires p in s.st.sessions && SessionOk(file, s, p) && p in s.owner && s.owner[p] != id
    ensures SessionOk(file, z, p)
  {
    assert p != path && TempOf(p) != path;
    assert Live(z, p) == Live(s, p);
  }

  lemma AllocateKeepsPaths(s: System, z: System, id: string, path: Path)
    requires PathsOk(s) && Allocated(s, z, id, path)
    requires forall p :: p in s.owner ==> s.owner[p] != id
    ensures PathsOk(z)
  {
    assert |TempOf(path)| == |path| + 5;
  }

  lemma AllocateKeepsCoupling(s: System, z: System, id: string, path: Path)
    requires PathsOk(s) && Coupled(s) && Allocated(s, z, id, path)
    requires forall p :: p in s.owner ==> s.owner[p] != id
    requires s.r.transfers[id].nextChunkIndex == 0
    ensures Coupled(z)
  {
    forall other | other in z.r.transfers
      ensures OwnsTarget(z, other, z.r.transfers[other])
    {
      assert OwnsTarget(s, other, s.r.transfers[other]);
    }
  }

  lemma NoSessionWhileStarting(files: map<string, seq<byte>>, s: System, id: string)
    requires ProperFiles(files) && Inv(files, s) && id in s.r.transfers && Starting(s.r.transfers[id])
    ensures forall p :: p in s.owner ==> s.owner[p] != id
    ensures SanitizeTransferKey(id) == id && s.r.transfers[id].nextChunkIndex == 0
  {
    FileStore.SanitizeTokenId(id);
    assert TransferOk(files[id], s.r.transfers[id]);
  }

  lemma AllocateKeepsTransfers(files: map<string, seq<byte>>, s: System, id: string, path: Path)
    requires TransfersOk(files, s.r.transfers) && Enabled(s, MainAllocated(id, Some(path)))
    ensures TransfersOk(files, EndAllocate(s, id, Some(path)).r.transfers)
  {
    var t := s.r.transfers[id];
    assert TransferOk(files[id], t.(call := StartReply(Some(path))));
  }

  lemma AllocateKeepsInv(files: map<string, seq<byte>>, s: System, id: string, path: Path)
    requires ProperFiles(files) && Inv(files, s) && Enabled(s, MainAllocated(id, Some(path)))
    ensures Inv(files, EndAllocate(s, id, Some(path)))
  {
    var z := EndAllocate(s, id, Some(path));
    NoSessionWhileStarting(files, s, id);
    AllocateKeepsTransfers(files, s, id, path);
    AllocateKeepsPaths(s, z, id, path);
    AllocateKeepsCoupling(s, z, id, path);
    AllocateKeepsSessions(files, s, z, id, path);
  }

  lemma AllocateKeepsSessions(files: map<string, seq<byte>>, s: System, z: System, id: string, path: Path)
    requires Inv(files, s) && Allocated(s, z, id, path)
    requires forall p :: p in s.owner ==> s.owner[p] != id
    ensures SessionsOk(files, z)
  {
    forall p | p in z.st.sessions
      ensures p in z.owner && z.owner[p] in files && SessionOk(files[z.owner[p]], z, p)
    {
      if p == path {
        assert files[id][..0] == [];
        assert |TempOf(path)| == |path| + 5;
      } else {
        AllocateKeepsOtherSession(files[s.owner[p]], s, z, id, path, p);
      }
    }
  }

  // ----- every event

  lemma BeginAppendKeepsInv(files: map<string, seq<byte>>, s: System, id: string)
    requires ProperFiles(files) && Inv(files, s) && Enabled(s, MainAppend(id))
    ensures Inv(files, BeginAppend(s, id))
  {
    var c := s.r.transfers[id].call;
    var verdict := AppendCheck(s.st, id, c.index, c.chunk);
    OverflowImpossible(files, s, id);
    if verdict.Write? {
      AppendWritingKeepsInv(files, s, id, verdict);
    } else {
      AppendRefusedKeepsInv(files, s, id);
    }
  }

  lemma AppendWritingKeepsInv(files: map<string, seq<byte>>, s: System, id: string, verdict: AppendVerdict)
    requires ProperFiles(files) && Inv(files, s) && Enabled(s, MainAppend(id)) && verdict.Write?
    requires verdict == AppendCheck(s.st, id, s.r.transfers[id].call.index, s.r.transfers[id].call.chunk)
    ensures var c := s.r.transfers[id].call; Inv(files, SetCall(s, id, AppendWriting(c.index, c.chunk, verdict.path)))
  {
    var c := s.r.transfers[id].call;
    assert TransferOk(files[id], s.r.transfers[id]);
    VerdictIsOwn(s, id, verdict);
    WritingIsOk(files[id], s.r.transfers[id], verdict.path);
    SetCallKeepsInv(files, s, id, AppendWriting(c.index, c.chunk, verdict.path));
  }

  lemma WritingIsOk(file: seq<byte>, t: Transfer, path: Path)
    requires t.call.AppendSent? && CallOk(file, t)
    ensures var u := t.(call := AppendWriting(t.call.index, t.call.chunk, path)); CallOk(file, u) && SameFooting(t, u)
  {
  }

  lemma AppendRefusedKeepsInv(files: map<string, seq<byte>>, s: System, id: string)
    requires ProperFiles(files) && Inv(files, s) && Enabled(s, MainAppend(id))
    ensures var c := s.r.transfers[id].call; Inv(files, SetCall(s, id, AppendReply(c.index, c.chunk, false)))
  {
    var c := s.r.transfers[id].call;
    assert TransferOk(files[id], s.r.transfers[id]);
    SetCallKeepsInv(files, s, id, AppendReply(c.index, c.chunk, false));
  }

  lemma VerdictIsOwn(s: System, id: string, verdict: AppendVerdict)
    requires PathsOk(s) && Enabled(s, MainAppend(id)) && IsToken(id, 80)
    requires verdict == AppendCheck(s.st, id, s.r.transfers[id].call.index, s.r.transfers[id].call.chunk)
    ensures verdict.Write? ==> verdict.path in s.owner && s.owner[verdict.path] == id
  {
    FileStore.SanitizeTokenId(id);
  }

  // With the senders' messages the main process's own size check never fires.
  lemma OverflowImpossible(files: map<string, seq<byte>>, s: System, id: string)
    requires ProperFiles(files) && Inv(files, s) && Enabled(s, MainAppend(id))
    ensures !AppendCheck(s.st, id, s.r.transfers[id].call.index, s.r.transfers[id].call.chunk).Overflow?
  {
    var c := s.r.transfers[id].call;
    assert TransferOk(files[id], s.r.transfers[id]);
    if id in s.st.saves {
      ExpectedChunkFits(files[id], s, s.st.saves[id], c.index);
    }
    FileStore.SanitizeTokenId(id);
    NoOverflow(s.st, id, c.index, c.chunk);
  }

  lemma NoOverflow(st: Store, id: string, index: int, bytes: seq<byte>)
    requires SanitizeTransferKey(id) == id
    requires id in st.saves && st.saves[id] in st.sessions && index == st.sessions[st.saves[id]].expectedChunkIndex ==>
               st.sessions[st.saves[id]].receivedBytes + |bytes| <= st.sessions[st.saves[id]].expectedSize
    ensures !AppendCheck(st, id, index, bytes).Overflow?
  {
  }

  lemma ExpectedChunkFits(file: seq<byte>, s: System, p: Path, i: int)
    requires p in s.st.sessions && SessionOk(file, s, p)
    requires 0 <= i < ChunkCount(|file|)
    ensures i == s.st.sessions[p].expectedChunkIndex ==>
              s.st.sessions[p].receivedBytes + |Chunk(file, i)| <= s.st.sessions[p].expectedSize
  {
    ChunkLength(file, i);
    OffsetGrows(|file|, i);
  }

  lemma BeginCompleteKeepsInv(files: map<string, seq<byte>>, s: System, id: string)
    requires Inv(files, s) && Enabled(s, MainComplete(id))
    ensures Inv(files, BeginComplete(s, id))
  {
    var rest := s.(r := s.r.(completeCalls := s.r.completeCalls - multiset{id}));
    SameTransfers(files, s, rest.r);
    if !CompleteCheck(s.st, id).Unknown? {
      assert SessionOk(files[SanitizeTransferKey(id)], rest, rest.st.saves[SanitizeTransferKey(id)]);
      ForgetKeepsInv(files, rest, BeginComplete(s, id), SanitizeTransferKey(id));
    }
  }

  lemma BeginAbortKeepsInv(files: map<string, seq<byte>>, s: System, id: string)
    requires Inv(files, s) && Enabled(s, MainAbort(id))
    ensures Inv(files, BeginAbort(s, id))
  {
    var rest := s.(r := s.r.(abortCalls := s.r.abortCalls - multiset{id}));
    SameTransfers(files, s, rest.r);
    var key := SanitizeTransferKey(id);
    if FileStore.SanitizeTransferId(id).Some? && key in s.st.saves {
      assert SessionOk(files[key], rest, rest.st.saves[key]);
      ForgetKeepsInv(files, rest, BeginAbort(s, id), key);
    }
  }

  lemma SameTransfers(files: map<string, seq<byte>>, s: System, r: Renderer)
    requires Inv(files, s) && r.transfers == s.r.transfers
    ensures Inv(files, s.(r := r))
  {
    RendererAlone(files, s, r);
  }

  // The messages an event may deliver are those of the senders.
  ghost predicate Legal(files: map<string, seq<byte>>, s: System, e: Event) {
    Enabled(s, e) && (e.Deliver? ==> Genuine(files, e.m))
  }

  lemma StartRepliedKeepsInv(files: map<string, seq<byte>>, s: System, id: string)
    requires Inv(files, s) && id in s.r.transfers && s.r.transfers[id].call.StartReply?
    ensures Inv(files, s.(r := FileReceiver.StartReplied(s.r, id)))
  {
    StartRepliedFollows(files[id], s.r, id);
    OneTransferAlone(files, s, FileReceiver.StartReplied(s.r, id), id);
  }

  lemma TaskStartsKeepsInv(files: map<string, seq<byte>>, s: System, id: string)
    requires Inv(files, s) && TaskReady(s.r, id)
    ensures Inv(files, s.(r := RunTask(s.r, id)))
  {
    RunTaskFollows(files[id], s.r, id);
    OneTransferAlone(files, s, RunTask(s.r, id), id);
  }

  lemma AppendRepliedKeepsInv(files: map<string, seq<byte>>, s: System, id: string)
    requires Inv(files, s) && id in s.r.transfers && s.r.transfers[id].call.AppendReply?
    ensures Inv(files, s.(r := FileReceiver.AppendReplied(s.r, id)))
  {
    AppendRepliedFollows(files[id], s.r, id);
    OneTransferAlone(files, s, FileReceiver.AppendReplied(s.r, id), id);
  }

  lemma QueueAwaitedKeepsInv(files: map<string, seq<byte>>, s: System, id: string, k: nat)
    requires Inv(files, s) && WaiterReady(s.r, id, k)
    ensures Inv(files, s.(r := FinishWaiting(s.r, id, k)))
  {
    FinishWaitingFollows(files[id], s.r, id, k);
    OneTransferAlone(files, s, FinishWaiting(s.r, id, k), id);
  }

  lemma TimerFiresKeepsInv(files: map<string, seq<byte>>, s: System, id: string)
    requires Inv(files, s) && TimerDue(s.r, id)
    ensures Inv(files, s.(r := TimeOut(s.r, id)))
  {
    TimeOutFollows(files[id], s.r, id);
    OneTransferAlone(files, s, TimeOut(s.r, id), id);
  }

  lemma DeliverKeepsInv(files: map<string, seq<byte>>, s: System, m: Message)
    requires ProperFiles(files) && Inv(files, s) && Legal(files, s, Deliver(m))
    ensures Inv(files, s.(r := DeliverTo(s.r, m)))
  {
    GenuineIsSanitary(files, m);
    if Sanitize(m).Some? {
      ReceiveKeepsInv(files, s, m);
    } else {
      assert s.(r := s.r) == s;
    }
  }

  lemma StartKeepsInv(files: map<string, seq<byte>>, s: System, id: string)
    requires Inv(files, s) && Enabled(s, MainStart(id))
    ensures Inv(files, BeginStart(s, id))
  {
    assert TransferOk(files[id], s.r.transfers[id]);
    SetCallKeepsInv(files, s, id, StartAllocating);
    SetCallKeepsInv(files, s, id, StartReply(None));
  }

  lemma MainAllocatedKeepsInv(files: map<string, seq<byte>>, s: System, id: string, place: Option<Path>)
    requires ProperFiles(files) && Inv(files, s) && Enabled(s, MainAllocated(id, place))
    ensures Inv(files, EndAllocate(s, id, place))
  {
    if place.Some? {
      AllocateKeepsInv(files, s, id, place.value);
    } else {
      assert TransferOk(files[id], s.r.transfers[id]);
      SetCallKeepsInv(files, s, id, StartReply(None));
    }
  }

  lemma MainWrittenKeepsInv(files: map<string, seq<byte>>, s: System, id: string, ok: bool)
    requires Inv(files, s) && Enabled(s, MainWritten(id, ok))
    ensures Inv(files, EndWrite(s, id, ok))
  {
    if ok {
      WriteKeepsInv(files, s, id);
    } else {
      assert TransferOk(files[id], s.r.transfers[id]);
      SetCallKeepsInv(files, s, id, AppendReply(s.r.transfers[id].call.index, s.r.transfers[id].call.chunk, false));
    }
  }

  lemma MainRenamedKeepsInv(files: map<string, seq<byte>>, s: System, path: Path, ok: bool)
    requires Inv(files, s) && path in s.renames
    ensures Inv(files, EndRename(s, path, ok))
  {
    if ok && TempOf(path) in s.st.files {
      RenameKeepsInv(files, s, path);
    } else {
      RenameFailsKeepsInv(files, s, path);
    }
  }

  lemma MainEventKeepsInv(files: map<string, seq<byte>>, s: System, e: Event)
    requires ProperFiles(files) && Inv(files, s) && Enabled(s, e) && AtMain(e)
    ensures Inv(files, ApplyMain(s, e))
  {
    match e
    case MainStart(id) => StartKeepsInv(files, s, id);
    case MainAllocated(id, place) => MainAllocatedKeepsInv(files, s, id, place);
    case MainAppend(id) => BeginAppendKeepsInv(files, s, id);
    case MainWritten(id, ok) => MainWrittenKeepsInv(files, s, id, ok);
    case MainComplete(id) => BeginCompleteKeepsInv(files, s, id);
    case MainRenamed(path, ok) => MainRenamedKeepsInv(files, s, path, ok);
    case MainAbort(id) => BeginAbortKeepsInv(files, s, id);
    case MainUnlinked(path, _) => UnlinkFailsKeepsInv(files, s, path); UnlinkKeepsInv(files, s, path);
  }

  lemma QueueEventKeepsInv(files: map<string, seq<byte>>, s: System, e: Event)
    requires Inv(files, s) && Enabled(s, e)
    requires e.StartReplied? || e.TaskStarts? || e.AppendReplied?
    ensures Inv(files, s.(r := ApplyRenderer(s, e)))
  {
    match e
    case StartReplied(id) => StartRepliedKeepsInv(files, s, id);
    case TaskStarts(id) => TaskStartsKeepsInv(files, s, id);
    case AppendReplied(id) => AppendRepliedKeepsInv(files, s, id);
  }

  lemma OtherEventKeepsInv(files: map<string, seq<byte>>, s: System, e: Event)
    requires Inv(files, s) && Enabled(s, e)
    requires e.QueueAwaited? || e.TimerFires? || e.ChannelCloses? || e.Tick?
    ensures Inv(files, s.(r := ApplyRenderer(s, e)))
  {
    if e.QueueAwaited? {
      QueueAwaitedKeepsInv(files, s, e.id, e.k);
    } else if e.TimerFires? {
      TimerFiresKeepsInv(files, s, e.id);
    } else {
      ChannelOrClockKeepsInv(files, s, e);
    }
  }

  lemma ChannelOrClockKeepsInv(files: map<string, seq<byte>>, s: System, e: Event)
    requires Inv(files, s) && Enabled(s, e) && (e.ChannelCloses? || e.Tick?)
    ensures Inv(files, s.(r := ApplyRenderer(s, e)))
  {
    var r := ApplyRenderer(s, e);
    if e.ChannelCloses? {
      assert r == Interrupt(s.r);
      InterruptKeepsInv(files, s);
    } else {
      assert r == s.r.(now := s.r.now + e.ms);
      SameTransfers(files, s, r);
    }
  }

  lemma EventKeepsInv(files: map<string, seq<byte>>, s: System, e: Event)
    requires ProperFiles(files) && Inv(files, s) && Legal(files, s, e)
    ensures Inv(files, Apply(s, e))
  {
    if AtMain(e) {
      MainEventKeepsInv(files, s, e);
    } else if e.Deliver? {
      DeliverKeepsInv(files, s, e.m);
    } else if e.QueueAwaited? || e.TimerFires? || e.ChannelCloses? || e.Tick? {
      OtherEventKeepsInv(files, s, e);
    } else {
      QueueEventKeepsInv(files, s, e);
    }
  }

  // ----- runs

  // A run: events that are possible where they happen.
  ghost predicate Possible(start: System, events: seq<Event>) {
    events == [] || (Possible(start, events[..|events| - 1])
                     && Enabled(After(start, events[..|events| - 1]), events[|events| - 1]))
  }

  ghost function After(start: System, events: seq<Event>): System {
    if events == [] then start
    else
      var before := After(start, events[..|events| - 1]);
      var last := events[|events| - 1];
      if Enabled(before, last) then Apply(before, last) else before
  }

  // A run in which the senders' messages, and no others, are delivered.
  ghost predicate Run(files: map<string, seq<byte>>, start: System, events: seq<Event>) {
    && Possible(start, events)
    && forall i :: 0 <= i < |events| && events[i].Deliver? ==> Genuine(files, events[i].m)
  }

  lemma {:induction false} InvAlways(files: map<string, seq<byte>>, disk: Files, events: seq<Event>)
    requires ProperFiles(files) && Run(files, Initial(disk), events)
    ensures Inv(files, After(Initial(disk), events))
  {
    if events != [] {
      var front := events[..|events| - 1];
      InvAlways(files, disk, front);
      EventKeepsInv(files, After(Initial(disk), front), events[|events| - 1]);
    }
  }

  /** In every run, whatever files are on disk at the start and whichever messages of the senders
      are lost, repeated or reordered, with aborts, timeouts, failing I/O and any interleaving: at
      every moment each final path that a complete call has reported as saved holds exactly the
      bytes of the file that its sender read; and no transfer is saved twice. */
  lemma Integrity(files: map<string, seq<byte>>, disk: Files, events: seq<Event>)
    requires ProperFiles(files) && Run(files, Initial(disk), events)
    ensures var s := After(Initial(disk), events);
      forall p :: p in s.saved ==>
        && p in s.owner && s.owner[p] in files && p in s.st.files && s.st.files[p] == files[s.owner[p]]
        && forall q :: q in s.saved && q in s.owner && s.owner[q] == s.owner[p] ==> q == p
  {
    InvAlways(files, disk, events);
    var s := After(Initial(disk), events);
    forall p | p in s.saved
      ensures p in s.owner && s.owner[p] in files && p in s.st.files && s.st.files[p] == files[s.owner[p]]
    {
      assert SessionOk(files[s.owner[p]], s, p);
    }
  }

  /** What `sendFile` puts on the channel is what the theorem allows to be delivered. */
  lemma TranscriptIsGenuine(files: map<string, seq<byte>>, id: string, name: string, k: nat)
    requires id in files && k < |Transcript(id, name, files[id])|
    ensures Genuine(files, Transcript(id, name, files[id])[k]) && Genuine(files, FileAbort(id))
  {
    TranscriptAt(id, name, files[id], k);
  }
}
