// Delivery: when the channel delivers the messages of one transfer once each and in order, and
// nothing fails or times out for it, every run ends with its file saved, whatever the other
// transfers do meanwhile. The steps of the transfer are counted exactly.

module FileDelivery {
  import opened Basics
  import opened Checksum
  import opened DataChannel
  import opened FileStore
  import opened FileReceiver
  import opened FileSender
  import opened FileTransfer
  import opened FileTermination
  import Base64

  predicate Started(t: Transfer) { !Starting(t) && !t.call.StartReply? }

  // The queued tasks for the chunks from `a` up to `b`.
  function Pending(file: seq<byte>, a: nat, b: nat): seq<Task>
    requires a <= b <= ChunkCount(|file|)
  {
    seq(b - a, i requires 0 <= i < b - a => Task(a + i, Base64.Encode(Chunk(file, a + i))))
  }

  // The number of chunks delivered when `d` messages of the transcript are.
  function ChunksDelivered(file: seq<byte>, d: nat): nat { Min(Max(d - 1, 0), ChunkCount(|file|)) }

  function Taken(t: Transfer): nat { t.nextChunkIndex + if Appending(t.call) then 1 else 0 }

  // The queue holds exactly the delivered chunks not yet taken, and nothing was rejected.
  ghost predicate QueueOnCourse(file: seq<byte>, t: Transfer, d: nat) {
    && !t.failed && !t.rejected && |t.name| <= DataChannel.MAX_FILE_NAME_LENGTH
    && t.settled == (if Started(t) then 1 + t.nextChunkIndex else 0)
    && (!Started(t) ==> t.nextChunkIndex == 0)
    && (t.call.StartReply? ==> t.call.path.Some?)
    && (t.call.AppendReply? ==> t.call.ok)
    && Taken(t) <= ChunksDelivered(file, d)
    && t.queue == Pending(file, Taken(t), ChunksDelivered(file, d))
  }

  ghost predicate Fired(file: seq<byte>, t: Transfer, d: nat) {
    d == ChunkCount(|file|) + 2 && t.waiters == []
  }

  // The session of a transfer is in the given set.
  ghost predicate InSet(s: System, id: string, paths: set<Path>) {
    exists p :: p in paths && p in s.owner && s.owner[p] == id
  }

  // Before the complete message has been acted on.
  ghost predicate Receiving(file: seq<byte>, s: System, id: string, t: Transfer, d: nat) {
    && id in s.r.registered
    && s.r.completeCalls[id] == 0
    && t.waiters == (if d == ChunkCount(|file|) + 2
                     then [Waiter(ChunkCount(|file|) + 1, FormatFileTransferChecksum(Fnv1a(file)))] else [])
    && (!Starting(t) ==> id in s.st.saves)
    && !InSet(s, id, s.renames) && !InSet(s, id, s.saved)
  }

  // After it: the complete call, then the rename, then the file is saved.
  ghost predicate Completing(file: seq<byte>, s: System, id: string, t: Transfer) {
    && id !in s.r.registered && t.call.NoCall? && t.nextChunkIndex == ChunkCount(|file|)
    && if s.r.completeCalls[id] > 0
       then s.r.completeCalls[id] == 1 && id in s.st.saves && !InSet(s, id, s.renames) && !InSet(s, id, s.saved)
       else InSet(s, id, s.renames) != InSet(s, id, s.saved)
  }

  // The transfer after `d` of its messages.
  ghost predicate OnCourse(file: seq<byte>, s: System, id: string, d: nat) {
    && d <= ChunkCount(|file|) + 2
    && s.r.abortCalls[id] == 0
    && !InSet(s, id, s.unlinks)
    && if d == 0 then id !in s.r.transfers && id !in s.r.registered && s.r.completeCalls[id] == 0
       else
         && id in s.r.transfers
         && QueueOnCourse(file, s.r.transfers[id], d)
         && if Fired(file, s.r.transfers[id], d)
            then Completing(file, s, id, s.r.transfers[id]) else Receiving(file, s, id, s.r.transfers[id], d)
  }

  function CallLeft(t: Transfer): int {
    match t.call
    case StartSent => 3
    case StartAllocating => 2
    case StartReply(_) => 1
    case NoCall => 0
    case AppendSent(_, _) => -1
    case AppendWriting(_, _, _) => -2
    case AppendReply(_, _, _) => -3
  }

  // The steps that are left for the transfer.
  ghost function Remaining(file: seq<byte>, s: System, id: string, d: nat): int {
    var n := ChunkCount(|file|);
    (n + 2 - d) + if d == 0 || id !in s.r.transfers then 4 * n + 6
    else
      var t := s.r.transfers[id];
      CallLeft(t) + 4 * (n - t.nextChunkIndex)
      + if !Fired(file, t, d) then 3 else if s.r.completeCalls[id] > 0 then 2
        else if InSet(s, id, s.renames) then 1 else 0
  }

  // The events that belong to the transfer.
  predicate Mine(s: System, id: string, e: Event) {
    match e
    case Deliver(m) => m.transferId == id
    case MainRenamed(path, _) => path in s.owner && s.owner[path] == id
    case MainUnlinked(path, _) => path in s.owner && s.owner[path] == id
    case ChannelCloses => false
    case Tick(_) => false
    case _ => e.id == id
  }

  // Nothing goes wrong for the transfer in this event, and its messages come in order; when the
  // first one comes, there is a place for it.
  ghost predicate Smooth(file: seq<byte>, s: System, id: string, name: string, d: nat, e: Event) {
    && !e.ChannelCloses?
    && (Mine(s, id, e) ==>
          match e
          case Deliver(m) =>
            && d < ChunkCount(|file|) + 2 && m == Transcript(id, name, file)[d]
            && (d == 0 ==> |s.r.registered| < MAX_INCOMING_TRANSFERS)
          case MainAllocated(_, place) => place.Some?
          case MainWritten(_, ok) => ok
          case MainRenamed(_, ok) => ok
          case TimerFires(_) => false
          case _ => true)
  }

  // ----- events of other transfers

  // The transfer and what OnCourse looks at are as before.
  ghost predicate Untouched(s: System, z: System, id: string) {
    && (id in z.r.transfers) == (id in s.r.transfers)
    && (id in s.r.transfers ==> z.r.transfers[id] == s.r.transfers[id])
    && (id in z.r.registered) == (id in s.r.registered)
    && z.r.abortCalls[id] == s.r.abortCalls[id] && z.r.completeCalls[id] == s.r.completeCalls[id]
    && (id in z.st.saves) == (id in s.st.saves)
    && InSet(z, id, z.unlinks) == InSet(s, id, s.unlinks)
    && InSet(z, id, z.renames) == InSet(s, id, s.renames)
    && InSet(z, id, z.saved) == InSet(s, id, s.saved)
  }

  lemma UntouchedStaysOnCourse(file: seq<byte>, s: System, z: System, id: string, d: nat)
    requires OnCourse(file, s, id, d) && Untouched(s, z, id)
    ensures OnCourse(file, z, id, d) && Remaining(file, z, id, d) == Remaining(file, s, id, d)
  {
  }

  // A step of the renderer for another transfer, or for none.
  predicate RendererElsewhere(r: Renderer, z: Renderer, id: string) {
    && (id in z.transfers) == (id in r.transfers)
    && (id in r.transfers ==> z.transfers[id] == r.transfers[id])
    && (id in z.registered) == (id in r.registered)
    && z.abortCalls[id] == r.abortCalls[id] && z.completeCalls[id] == r.completeCalls[id]
  }

  lemma RendererEventElsewhere(s: System, id: string, e: Event)
    requires Enabled(s, e) && !AtMain(e) && !e.ChannelCloses? && !e.Deliver? && !Mine(s, id, e)
    ensures RendererElsewhere(s.r, ApplyRenderer(s, e), id)
  {
  }

  lemma DeliverElsewhere(files: map<string, seq<byte>>, s: System, id: string, m: Message)
    requires ProperFiles(files) && Genuine(files, m) && m.transferId != id
    ensures RendererElsewhere(s.r, DeliverTo(s.r, m), id)
  {
    GenuineIsSanitary(files, m);
  }

  lemma SameSetElsewhere(s: System, z: System, id: string, before: set<Path>, after: set<Path>, p: Path)
    requires before - {p} == after - {p}
    requires forall q :: q in before || q in after ==> q in s.owner && q in z.owner && z.owner[q] == s.owner[q]
    requires p in s.owner && s.owner[p] != id
    ensures InSet(z, id, after) == InSet(s, id, before)
  {
    if InSet(s, id, before) {
      var q :| q in before && q in s.owner && s.owner[q] == id;
      assert q in before - {p} && q in after;
    }
    if InSet(z, id, after) {
      var q :| q in after && q in z.owner && z.owner[q] == id;
      assert q in after - {p} && q in before;
    }
  }

  lemma CallElsewhere(s: System, other: string, call: Call, id: string)
    requires other in s.r.transfers && other != id
    ensures Untouched(s, SetCall(s, other, call), id)
  {
  }

  // Another transfer's session is forgotten.
  lemma ForgetElsewhere(s: System, z: System, other: string, id: string)
    requires PathsOk(s) && Forgotten(s, z, other) && other != id
    ensures Untouched(s, z, id)
  {
    var p := s.st.saves[other];
    SameSetElsewhere(s, z, id, s.unlinks, z.unlinks, p);
    SameSetElsewhere(s, z, id, s.renames, z.renames, p);
  }

  lemma AbortElsewhere(files: map<string, seq<byte>>, s: System, other: string, id: string)
    requires ProperFiles(files) && Inv(files, s) && Enabled(s, MainAbort(other)) && other != id && other in files
    ensures Untouched(s, BeginAbort(s, other), id)
  {
    FileStore.SanitizeTokenId(other);
    var rest := s.(r := s.r.(abortCalls := s.r.abortCalls - multiset{other}));
    if other in s.st.saves {
      ForgetElsewhere(rest, BeginAbort(s, other), other, id);
    }
  }

  lemma CompleteElsewhere(files: map<string, seq<byte>>, s: System, other: string, id: string)
    requires ProperFiles(files) && Inv(files, s) && Enabled(s, MainComplete(other)) && other != id && other in files
    ensures Untouched(s, BeginComplete(s, other), id)
  {
    FileStore.SanitizeTokenId(other);
    var rest := s.(r := s.r.(completeCalls := s.r.completeCalls - multiset{other}));
    if other in s.st.saves {
      ForgetElsewhere(rest, BeginComplete(s, other), other, id);
    }
  }

  lemma AppendElsewhere(files: map<string, seq<byte>>, s: System, other: string, id: string)
    requires ProperFiles(files) && Inv(files, s) && Enabled(s, MainAppend(other)) && other != id
    ensures Untouched(s, BeginAppend(s, other), id)
  {
    OverflowImpossible(files, s, other);
    var c := s.r.transfers[other].call;
    CallElsewhere(s, other, AppendReply(c.index, c.chunk, false), id);
    match AppendCheck(s.st, other, c.index, c.chunk)
    case Refused =>
    case Write(path) => CallElsewhere(s, other, AppendWriting(c.index, c.chunk, path), id);
  }

  lemma AllocateElsewhere(files: map<string, seq<byte>>, s: System, other: string, place: Option<Path>, id: string)
    requires ProperFiles(files) && Inv(files, s) && Enabled(s, MainAllocated(other, place)) && other != id
    ensures Untouched(s, EndAllocate(s, other, place), id)
  {
    FileStore.SanitizeTokenId(other);
    CallElsewhere(s, other, StartReply(place), id);
    if place.Some? {
      AllocatedSets(s, other, place.value, id);
    }
  }

  // A new session is in none of the sets.
  lemma AllocatedSets(s: System, other: string, path: Path, id: string)
    requires PathsOk(s) && Enabled(s, MainAllocated(other, Some(path)))
    ensures var z := EndAllocate(s, other, Some(path));
      InSet(z, id, z.unlinks) == InSet(s, id, s.unlinks) && InSet(z, id, z.renames) == InSet(s, id, s.renames)
      && InSet(z, id, z.saved) == InSet(s, id, s.saved)
  {
    var z := EndAllocate(s, other, Some(path));
    SameOwners(s, z, id, s.unlinks);
    SameOwners(s, z, id, s.renames);
    SameOwners(s, z, id, s.saved);
  }

  lemma SameOwners(s: System, z: System, id: string, paths: set<Path>)
    requires forall q :: q in paths ==> q in s.owner && q in z.owner && z.owner[q] == s.owner[q]
    ensures InSet(z, id, paths) == InSet(s, id, paths)
  {
    if InSet(s, id, paths) {
      var q :| q in paths && q in s.owner && s.owner[q] == id;
      assert q in z.owner;
    }
  }

  lemma RenameElsewhere(s: System, path: Path, ok: bool, id: string)
    requires PathsOk(s) && path in s.renames && s.owner[path] != id
    ensures Untouched(s, EndRename(s, path, ok), id)
  {
    var z := EndRename(s, path, ok);
    SameSetElsewhere(s, z, id, s.renames, z.renames, path);
    SameSetElsewhere(s, z, id, s.saved, z.saved, path);
  }

  lemma UnlinkElsewhere(s: System, path: Path, ok: bool, id: string)
    requires PathsOk(s) && path in s.unlinks && s.owner[path] != id
    ensures Untouched(s, EndUnlink(s, path, ok), id)
  {
    var z := EndUnlink(s, path, ok);
    SameSetElsewhere(s, z, id, s.unlinks, z.unlinks, path);
  }

  lemma MainEventElsewhere(files: map<string, seq<byte>>, s: System, id: string, e: Event)
    requires ProperFiles(files) && Inv(files, s) && Bounded(s.r)
    requires Enabled(s, e) && AtMain(e) && !Mine(s, id, e)
    ensures Untouched(s, ApplyMain(s, e), id)
  {
    match e
    case MainStart(other) =>
      CallElsewhere(s, other, StartAllocating, id);
      CallElsewhere(s, other, StartReply(None), id);
    case MainAllocated(other, place) => AllocateElsewhere(files, s, other, place, id);
    case MainAppend(other) => AppendElsewhere(files, s, other, id);
    case MainWritten(other, ok) =>
      var c := s.r.transfers[other].call;
      CallElsewhere(s, other, AppendReply(c.index, c.chunk, ok), id);
    case MainComplete(other) => CompleteElsewhere(files, s, other, id);
    case MainRenamed(path, ok) => RenameElsewhere(s, path, ok, id);
    case MainAbort(other) => AbortElsewhere(files, s, other, id);
    case MainUnlinked(path, ok) => UnlinkElsewhere(s, path, ok, id);
  }

  lemma EventElsewhere(files: map<string, seq<byte>>, s: System, id: string, e: Event)
    requires ProperFiles(files) && Inv(files, s) && Bounded(s.r)
    requires Legal(files, s, e) && !e.ChannelCloses? && !Mine(s, id, e)
    ensures Untouched(s, Apply(s, e), id)
  {
    if AtMain(e) {
      MainEventElsewhere(files, s, id, e);
    } else {
      if e.Deliver? {
        DeliverElsewhere(files, s, id, e.m);
      } else {
        RendererEventElsewhere(s, id, e);
      }
      assert RendererElsewhere(s.r, ApplyRenderer(s, e), id);
    }
  }

  // ----- the transfer's own events, each one step nearer

  // Everything known about the transfer at a moment of a smooth run.
  ghost predicate Now(files: map<string, seq<byte>>, s: System, id: string, d: nat) {
    && ProperFiles(files) && Inv(files, s) && Bounded(s.r)
    && id in files && files[id] != []
    && OnCourse(files[id], s, id, d)
  }

  ghost predicate Advances(file: seq<byte>, s: System, d: nat, z: System, e: nat, id: string) {
    OnCourse(file, z, id, e) && Remaining(file, z, id, e) == Remaining(file, s, id, d) - 1
  }

  lemma NotFiredWhileBusy(file: seq<byte>, s: System, id: string, d: nat)
    requires OnCourse(file, s, id, d) && d > 0
    requires !s.r.transfers[id].call.NoCall? || s.r.transfers[id].queue != [] || d < ChunkCount(|file|) + 2
    ensures !Fired(file, s.r.transfers[id], d)
  {
  }

  // What a step up to the complete message has to show: the queue is on course, and it is one
  // step further.
  ghost predicate Onward(file: seq<byte>, t: Transfer, d: nat, u: Transfer, e: nat) {
    var n := ChunkCount(|file|);
    && d <= e <= n + 2
    && QueueOnCourse(file, u, e)
    && u.waiters == (if e == n + 2 then [Waiter(n + 1, FormatFileTransferChecksum(Fnv1a(file)))] else [])
    && (n + 2 - e) + CallLeft(u) + 4 * (n - u.nextChunkIndex) == (n + 2 - d) + CallLeft(t) + 4 * (n - t.nextChunkIndex) - 1
  }

  lemma OwnerUnchanged(s: System, z: System, id: string)
    requires z.owner == s.owner
    ensures forall paths :: InSet(z, id, paths) == InSet(s, id, paths)
  {
  }

  lemma StepAdvances(file: seq<byte>, s: System, z: System, id: string, d: nat, e: nat)
    requires OnCourse(file, s, id, d) && d > 0 && !Fired(file, s.r.transfers[id], d)
    requires id in z.r.transfers && Onward(file, s.r.transfers[id], d, z.r.transfers[id], e)
    requires (id in z.r.registered) == (id in s.r.registered)
    requires z.r.abortCalls[id] == s.r.abortCalls[id] && z.r.completeCalls[id] == s.r.completeCalls[id]
    requires !Starting(z.r.transfers[id]) ==> id in z.st.saves
    requires InSet(z, id, z.unlinks) == InSet(s, id, s.unlinks)
    requires InSet(z, id, z.renames) == InSet(s, id, s.renames)
    requires InSet(z, id, z.saved) == InSet(s, id, s.saved)
    ensures Advances(file, s, d, z, e, id)
  {
  }

  // The same for a step of the renderer.
  lemma RendererStepAdvances(file: seq<byte>, s: System, r: Renderer, id: string, d: nat, e: nat)
    requires OnCourse(file, s, id, d) && d > 0 && !Fired(file, s.r.transfers[id], d)
    requires id in r.transfers && Onward(file, s.r.transfers[id], d, r.transfers[id], e)
    requires Starting(s.r.transfers[id]) ==> Starting(r.transfers[id])
    requires (id in r.registered) == (id in s.r.registered)
    requires r.abortCalls[id] == s.r.abortCalls[id] && r.completeCalls[id] == s.r.completeCalls[id]
    ensures Advances(file, s, d, s.(r := r), e, id)
  {
    var z := s.(r := r);
    OwnerUnchanged(s, z, id);
    StepAdvances(file, s, z, id, d, e);
  }

  lemma FirstMessageAdvances(files: map<string, seq<byte>>, s: System, id: string, name: string)
    requires Now(files, s, id, 0)
    requires |name| <= DataChannel.MAX_FILE_NAME_LENGTH && |s.r.registered| < MAX_INCOMING_TRANSFERS
    ensures Advances(files[id], s, 0, s.(r := Begin(s.r, id, name, |files[id]|)), 1, id)
  {
    var file := files[id];
    var z := s.(r := Begin(s.r, id, name, |file|));
    assert Pending(file, 0, 0) == [];
    forall p | p in s.owner
      ensures s.owner[p] != id
    {
    }
    assert !Fired(file, z.r.transfers[id], 1);
  }

  lemma ChunkIsOnward(file: seq<byte>, t: Transfer, d: nat, u: Transfer)
    requires QueueOnCourse(file, t, d) && 1 <= d <= ChunkCount(|file|) && t.waiters == []
    requires u == t.(queue := t.queue + [Task(d - 1, Base64.Encode(Chunk(file, d - 1)))])
    ensures Onward(file, t, d, u, d + 1)
  {
    assert Pending(file, Taken(t), d) == Pending(file, Taken(t), d - 1) + [Task(d - 1, Base64.Encode(Chunk(file, d - 1)))];
  }

  lemma ChunkMessageAdvances(file: seq<byte>, s: System, id: string, d: nat)
    requires OnCourse(file, s, id, d) && 1 <= d <= ChunkCount(|file|)
    ensures var m := ChunkMessage(id, file, d - 1);
      Advances(file, s, d, s.(r := Enqueue(s.r, id, m.index, m.data)), d + 1, id)
  {
    var m := ChunkMessage(id, file, d - 1);
    var r := Enqueue(s.r, id, m.index, m.data);
    NotFiredWhileBusy(file, s, id, d);
    ChunkIsOnward(file, s.r.transfers[id], d, r.transfers[id]);
    RendererStepAdvances(file, s, r, id, d, d + 1);
  }

  lemma CompleteIsOnward(file: seq<byte>, t: Transfer, d: nat, u: Transfer)
    requires QueueOnCourse(file, t, d) && d == ChunkCount(|file|) + 1 && t.waiters == []
    requires u == t.(waiters := t.waiters + [Waiter(QueueLength(t), FormatFileTransferChecksum(Fnv1a(file)))])
    ensures Onward(file, t, d, u, d + 1)
  {
    assert QueueLength(t) == ChunkCount(|file|) + 1;
  }

  lemma CompleteMessageAdvances(file: seq<byte>, s: System, id: string, d: nat)
    requires OnCourse(file, s, id, d) && d == ChunkCount(|file|) + 1
    ensures Advances(file, s, d, s.(r := AwaitQueue(s.r, id, CompleteMessage(id, file).checksum)), d + 1, id)
  {
    var r := AwaitQueue(s.r, id, CompleteMessage(id, file).checksum);
    NotFiredWhileBusy(file, s, id, d);
    CompleteIsOnward(file, s.r.transfers[id], d, r.transfers[id]);
    RendererStepAdvances(file, s, r, id, d, d + 1);
  }

  lemma DeliverAdvances(files: map<string, seq<byte>>, s: System, id: string, name: string, d: nat)
    requires Now(files, s, id, d) && d < ChunkCount(|files[id]|) + 2
    requires |name| <= DataChannel.MAX_FILE_NAME_LENGTH
    requires d == 0 ==> |s.r.registered| < MAX_INCOMING_TRANSFERS
    ensures var m := Transcript(id, name, files[id])[d];
      Advances(files[id], s, d, s.(r := DeliverTo(s.r, m)), d + 1, id)
  {
    TranscriptAt(id, name, files[id], d);
    TranscriptPassesSanitizer(id, name, files[id], d);
    if d == 0 {
      FirstMessageAdvances(files, s, id, name);
    } else if d <= ChunkCount(|files[id]|) {
      ChunkMessageAdvances(files[id], s, id, d);
    } else {
      CompleteMessageAdvances(files[id], s, id, d);
    }
  }

  // A call moves on at the main process.
  predicate CallMovesOn(before: Call, after: Call) {
    || (before.StartSent? && after.StartAllocating?)
    || (before.StartAllocating? && after.StartReply? && after.path.Some?)
    || (before.AppendSent? && after.AppendWriting?)
    || (before.AppendWriting? && after.AppendReply? && after.ok)
  }

  lemma CallIsOnward(file: seq<byte>, t: Transfer, d: nat, call: Call)
    requires QueueOnCourse(file, t, d) && CallMovesOn(t.call, call) && d <= ChunkCount(|file|) + 2
    requires t.waiters == (if d == ChunkCount(|file|) + 2
                           then [Waiter(ChunkCount(|file|) + 1, FormatFileTransferChecksum(Fnv1a(file)))] else [])
    ensures Onward(file, t, d, t.(call := call), d)
  {
    assert Taken(t.(call := call)) == Taken(t);
  }

  lemma StartAdvances(files: map<string, seq<byte>>, s: System, id: string, d: nat)
    requires Now(files, s, id, d) && Enabled(s, MainStart(id))
    ensures Advances(files[id], s, d, BeginStart(s, id), d, id)
  {
    var file, t := files[id], s.r.transfers[id];
    FileStore.SanitizeTokenId(id);
    assert TransferOk(file, t);
    assert StartAccepted(s.st, id, t.name, t.size);
    NotFiredWhileBusy(file, s, id, d);
    OwnCallAdvances(file, s, id, d, StartAllocating);
  }

  lemma AllocateAdvances(files: map<string, seq<byte>>, s: System, id: string, d: nat, path: Path)
    requires Now(files, s, id, d) && Enabled(s, MainAllocated(id, Some(path)))
    ensures Advances(files[id], s, d, EndAllocate(s, id, Some(path)), d, id)
  {
    AllocatedSets(s, id, path, id);
    AllocatedStep(files[id], s, id, d, path);
  }

  lemma AllocatedStep(file: seq<byte>, s: System, id: string, d: nat, path: Path)
    requires OnCourse(file, s, id, d) && d > 0 && Enabled(s, MainAllocated(id, Some(path)))
    requires IsToken(id, FileStore.MAX_TRANSFER_ID_LENGTH)
    requires var z := EndAllocate(s, id, Some(path));
      InSet(z, id, z.unlinks) == InSet(s, id, s.unlinks) && InSet(z, id, z.renames) == InSet(s, id, s.renames)
      && InSet(z, id, z.saved) == InSet(s, id, s.saved)
    ensures Advances(file, s, d, EndAllocate(s, id, Some(path)), d, id)
  {
    NotFiredWhileBusy(file, s, id, d);
    CallIsOnward(file, s.r.transfers[id], d, StartReply(Some(path)));
    AllocatedRenderer(s, id, path);
    StepAdvances(file, s, EndAllocate(s, id, Some(path)), id, d, d);
  }

  lemma AllocatedRenderer(s: System, id: string, path: Path)
    requires Enabled(s, MainAllocated(id, Some(path))) && IsToken(id, FileStore.MAX_TRANSFER_ID_LENGTH)
    ensures var z := EndAllocate(s, id, Some(path));
      z.r == SetCall(s, id, StartReply(Some(path))).r && id in z.st.saves
  {
    FileStore.SanitizeTokenId(id);
  }

  lemma StartReplyIsOnward(file: seq<byte>, t: Transfer, d: nat, u: Transfer)
    requires QueueOnCourse(file, t, d) && t.call.StartReply? && d <= ChunkCount(|file|) + 2
    requires t.waiters == (if d == ChunkCount(|file|) + 2
                           then [Waiter(ChunkCount(|file|) + 1, FormatFileTransferChecksum(Fnv1a(file)))] else [])
    requires u == t.(path := t.call.path, call := NoCall, settled := t.settled + 1)
    ensures Onward(file, t, d, u, d)
  {
  }

  lemma StartRepliedAdvances(file: seq<byte>, s: System, id: string, d: nat)
    requires OnCourse(file, s, id, d) && d > 0 && Enabled(s, FileTransfer.StartReplied(id))
    ensures Advances(file, s, d, s.(r := FileReceiver.StartReplied(s.r, id)), d, id)
  {
    var r := FileReceiver.StartReplied(s.r, id);
    NotFiredWhileBusy(file, s, id, d);
    StartReplyIsOnward(file, s.r.transfers[id], d, r.transfers[id]);
    RendererStepAdvances(file, s, r, id, d, d);
  }

  lemma TaskIsOnward(file: seq<byte>, t: Transfer, d: nat)
    requires QueueOnCourse(file, t, d) && t.call.NoCall? && t.queue != [] && d <= ChunkCount(|file|) + 2
    requires t.waiters == (if d == ChunkCount(|file|) + 2
                           then [Waiter(ChunkCount(|file|) + 1, FormatFileTransferChecksum(Fnv1a(file)))] else [])
    ensures t.nextChunkIndex < ChunkCount(|file|)
    ensures t.queue[0] == Task(t.nextChunkIndex, Base64.Encode(Chunk(file, t.nextChunkIndex)))
    ensures Onward(file, t, d, t.(queue := t.queue[1..],
                                  call := AppendSent(t.nextChunkIndex, Chunk(file, t.nextChunkIndex))), d)
  {
    var i, k := t.nextChunkIndex, ChunksDelivered(file, d);
    assert Pending(file, i, k)[1..] == Pending(file, i + 1, k);
  }

  lemma TaskStartsAdvances(file: seq<byte>, s: System, id: string, d: nat)
    requires OnCourse(file, s, id, d) && d > 0 && Enabled(s, TaskStarts(id))
    requires TransferOk(file, s.r.transfers[id])
    ensures Advances(file, s, d, s.(r := RunTask(s.r, id)), d, id)
  {
    var t, r := s.r.transfers[id], RunTask(s.r, id);
    NotFiredWhileBusy(file, s, id, d);
    TaskIsOnward(file, t, d);
    NextTaskRuns(file, s.r, id);
    RendererStepAdvances(file, s, r, id, d, d);
  }

  // The next chunk, in its turn, goes to the main process.
  lemma NextTaskRuns(file: seq<byte>, r: Renderer, id: string)
    requires TaskReady(r, id) && TransferOk(file, r.transfers[id]) && !r.transfers[id].failed
    requires var t := r.transfers[id];
      t.nextChunkIndex < ChunkCount(|file|)
      && t.queue[0] == Task(t.nextChunkIndex, Base64.Encode(Chunk(file, t.nextChunkIndex)))
    ensures var t := r.transfers[id];
      RunTask(r, id) == r.(transfers := r.transfers[id :=
        t.(queue := t.queue[1..], call := AppendSent(t.nextChunkIndex, Chunk(file, t.nextChunkIndex)))])
  {
    var i := r.transfers[id].nextChunkIndex;
    Base64.RoundTrip(Chunk(file, i));
    ChunkLength(file, i);
    OffsetGrows(|file|, i);
  }

  // The main process agrees on the index and the size: the chunk is written.
  lemma ExpectedChunkIsWritten(files: map<string, seq<byte>>, s: System, id: string)
    requires ProperFiles(files) && Inv(files, s) && Enabled(s, MainAppend(id)) && id in s.st.saves
    ensures var c := s.r.transfers[id].call; AppendCheck(s.st, id, c.index, c.chunk) == Write(s.st.saves[id])
  {
    FileStore.SanitizeTokenId(id);
    assert TransferOk(files[id], s.r.transfers[id]);
    var i := s.r.transfers[id].call.index;
    ChunkLength(files[id], i);
    var p := s.st.saves[id];
    assert s.owner[p] == id && s.st.sessions[p].expectedChunkIndex == i;
    assert SessionOk(files[id], s, p);
    ExpectedChunkFits(files[id], s, p, i);
  }

  lemma AppendAdvances(files: map<string, seq<byte>>, s: System, id: string, d: nat)
    requires Now(files, s, id, d) && Enabled(s, MainAppend(id))
    ensures Advances(files[id], s, d, BeginAppend(s, id), d, id)
  {
    var file, c := files[id], s.r.transfers[id].call;
    NotFiredWhileBusy(file, s, id, d);
    AppendIsWriting(files, s, id);
    OwnCallAdvances(file, s, id, d, AppendWriting(c.index, c.chunk, s.st.saves[id]));
  }

  lemma AppendIsWriting(files: map<string, seq<byte>>, s: System, id: string)
    requires ProperFiles(files) && Inv(files, s) && Enabled(s, MainAppend(id)) && id in s.st.saves
    ensures var c := s.r.transfers[id].call;
      BeginAppend(s, id) == SetCall(s, id, AppendWriting(c.index, c.chunk, s.st.saves[id]))
  {
    ExpectedChunkIsWritten(files, s, id);
  }

  lemma OwnCallAdvances(file: seq<byte>, s: System, id: string, d: nat, call: Call)
    requires OnCourse(file, s, id, d) && d > 0 && !Fired(file, s.r.transfers[id], d)
    requires CallMovesOn(s.r.transfers[id].call, call) && !call.StartReply?
    ensures Advances(file, s, d, SetCall(s, id, call), d, id)
  {
    CallIsOnward(file, s.r.transfers[id], d, call);
    RendererStepAdvances(file, s, SetCall(s, id, call).r, id, d, d);
  }

  lemma WrittenAdvances(file: seq<byte>, s: System, id: string, d: nat)
    requires OnCourse(file, s, id, d) && d > 0 && Enabled(s, MainWritten(id, true))
    ensures Advances(file, s, d, EndWrite(s, id, true), d, id)
  {
    var c, z := s.r.transfers[id].call, EndWrite(s, id, true);
    NotFiredWhileBusy(file, s, id, d);
    CallIsOnward(file, s.r.transfers[id], d, AppendReply(c.index, c.chunk, true));
    OwnerUnchanged(s, z, id);
    StepAdvances(file, s, z, id, d, d);
  }

  lemma AppendReplyIsOnward(file: seq<byte>, t: Transfer, d: nat, u: Transfer)
    requires QueueOnCourse(file, t, d) && t.call.AppendReply? && d <= ChunkCount(|file|) + 2
    requires t.waiters == (if d == ChunkCount(|file|) + 2
                           then [Waiter(ChunkCount(|file|) + 1, FormatFileTransferChecksum(Fnv1a(file)))] else [])
    requires u == t.(receivedBytes := u.receivedBytes, checksum := u.checksum, deadline := u.deadline,
                     nextChunkIndex := t.nextChunkIndex + 1, call := NoCall, settled := t.settled + 1)
    ensures Onward(file, t, d, u, d)
  {
    assert Taken(u) == Taken(t);
  }

  lemma AppendRepliedAdvances(file: seq<byte>, s: System, id: string, d: nat)
    requires OnCourse(file, s, id, d) && d > 0 && Enabled(s, FileTransfer.AppendReplied(id))
    ensures Advances(file, s, d, s.(r := FileReceiver.AppendReplied(s.r, id)), d, id)
  {
    var r := FileReceiver.AppendReplied(s.r, id);
    NotFiredWhileBusy(file, s, id, d);
    AppendReplyIsOnward(file, s.r.transfers[id], d, r.transfers[id]);
    RendererStepAdvances(file, s, r, id, d, d);
  }

  // ----- the end of the transfer

  // When the complete message's turn has come, every chunk has been counted.
  lemma AllCounted(file: seq<byte>, t: Transfer, d: nat)
    requires QueueOnCourse(file, t, d) && TransferOk(file, t)
    requires t.settled >= ChunkCount(|file|) + 1
    ensures t.nextChunkIndex == ChunkCount(|file|) && t.call.NoCall? && t.queue == []
    ensures t.receivedBytes == t.size && t.checksum == Fnv1a(file)
  {
    assert t.nextChunkIndex == ChunkCount(|file|) && !Appending(t.call);
    OffsetOfEnd(|file|);
    assert file[..|file|] == file;
  }

  lemma QueueAwaitedAdvances(file: seq<byte>, s: System, id: string, d: nat, k: nat)
    requires OnCourse(file, s, id, d) && d > 0 && Enabled(s, QueueAwaited(id, k))
    requires TransferOk(file, s.r.transfers[id])
    ensures Advances(file, s, d, s.(r := FinishWaiting(s.r, id, k)), d, id)
  {
    var t, z := s.r.transfers[id], s.(r := FinishWaiting(s.r, id, k));
    assert !Fired(file, t, d) && t.waiters == [Waiter(ChunkCount(|file|) + 1, FormatFileTransferChecksum(Fnv1a(file)))];
    AllCounted(file, t, d);
    OwnerUnchanged(s, z, id);
    assert z.r.transfers[id] == t.(waiters := [], deadline := None);
    AwaitedIsOnCourse(file, s, z, id, d);
  }

  lemma AwaitedIsOnCourse(file: seq<byte>, s: System, z: System, id: string, d: nat)
    requires OnCourse(file, s, id, d) && d == ChunkCount(|file|) + 2 && !Fired(file, s.r.transfers[id], d)
    requires var t := s.r.transfers[id]; t.nextChunkIndex == ChunkCount(|file|) && t.call.NoCall? && t.queue == []
    requires z.r.transfers.Keys == s.r.transfers.Keys
    requires z.r.transfers[id] == s.r.transfers[id].(waiters := [], deadline := None)
    requires id !in z.r.registered && z.r.abortCalls[id] == 0 && z.r.completeCalls[id] == 1
    requires z.st == s.st && z.owner == s.owner
    requires z.unlinks == s.unlinks && z.renames == s.renames && z.saved == s.saved
    ensures Advances(file, s, d, z, d, id)
  {
    OwnerUnchanged(s, z, id);
  }

  // The main process finds the session complete.
  lemma CompleteSessionIsRenamed(files: map<string, seq<byte>>, s: System, id: string)
    requires ProperFiles(files) && Inv(files, s) && id in files && id in s.st.saves && id in s.r.transfers
    requires s.r.transfers[id].nextChunkIndex == ChunkCount(|files[id]|) && s.r.transfers[id].call.NoCall?
    ensures CompleteCheck(s.st, id) == Rename(s.st.saves[id])
    ensures s.owner[s.st.saves[id]] == id
  {
    FileStore.SanitizeTokenId(id);
    SessionIsFull(files, s, id);
  }

  lemma SessionIsFull(files: map<string, seq<byte>>, s: System, id: string)
    requires ProperFiles(files) && Inv(files, s) && id in files && id in s.st.saves && id in s.r.transfers
    requires s.r.transfers[id].nextChunkIndex == ChunkCount(|files[id]|) && s.r.transfers[id].call.NoCall?
    ensures s.st.saves[id] in s.st.sessions && s.owner[s.st.saves[id]] == id
    ensures var session := s.st.sessions[s.st.saves[id]]; session.receivedBytes == session.expectedSize
  {
    var p := s.st.saves[id];
    assert s.owner[p] == id && Live(s, p);
    assert SessionOk(files[id], s, p);
    OffsetOfEnd(|files[id]|);
  }

  lemma MainCompleteAdvances(files: map<string, seq<byte>>, s: System, id: string, d: nat)
    requires Now(files, s, id, d) && Enabled(s, MainComplete(id))
    ensures Advances(files[id], s, d, BeginComplete(s, id), d, id)
  {
    var z := BeginComplete(s, id);
    assert d > 0 && Fired(files[id], s.r.transfers[id], d);
    CompletionStarts(files, s, id);
    OwnerUnchanged(s, z, id);
  }

  lemma CompletionStarts(files: map<string, seq<byte>>, s: System, id: string)
    requires ProperFiles(files) && Inv(files, s) && id in files && id in s.st.saves && id in s.r.transfers
    requires s.r.transfers[id].nextChunkIndex == ChunkCount(|files[id]|) && s.r.transfers[id].call.NoCall?
    requires Enabled(s, MainComplete(id))
    ensures var z := BeginComplete(s, id);
      InSet(z, id, z.renames) && z.r == s.r.(completeCalls := s.r.completeCalls - multiset{id})
      && z.unlinks == s.unlinks && z.saved == s.saved && z.owner == s.owner
  {
    FileStore.SanitizeTokenId(id);
    CompleteSessionIsRenamed(files, s, id);
    assert s.st.saves[id] in BeginComplete(s, id).renames;
  }

  lemma MainRenamedAdvances(files: map<string, seq<byte>>, s: System, id: string, d: nat, path: Path)
    requires Now(files, s, id, d) && Enabled(s, MainRenamed(path, true)) && Mine(s, id, MainRenamed(path, true))
    ensures Advances(files[id], s, d, EndRename(s, path, true), d, id)
  {
    var z := EndRename(s, path, true);
    var file := files[id];
    assert InSet(s, id, s.renames);
    assert SessionOk(file, s, path);
    assert file[..|file|] == file;
    assert TempOf(path) in s.st.files;
    OwnerUnchanged(s, z, id);
    assert path in z.saved;
    forall q | q in z.renames
      ensures q in s.owner && s.owner[q] != id
    {
      assert q in s.renames && q != path;
    }
  }

  // Nothing else can happen to the transfer.
  lemma NoAbort(files: map<string, seq<byte>>, s: System, id: string, d: nat, e: Event)
    requires Now(files, s, id, d) && Enabled(s, e) && Mine(s, id, e)
    ensures !e.MainAbort? && !e.MainUnlinked?
  {
    if e.MainUnlinked? {
      assert InSet(s, id, s.unlinks);
    }
  }

  function Next(s: System, id: string, d: nat, e: Event): nat {
    if e.Deliver? && Mine(s, id, e) then d + 1 else d
  }

  lemma OwnMainEventAdvances(files: map<string, seq<byte>>, s: System, id: string, name: string, d: nat, e: Event)
    requires Now(files, s, id, d) && Enabled(s, e) && AtMain(e)
    requires Mine(s, id, e) && Smooth(files[id], s, id, name, d, e)
    ensures Advances(files[id], s, d, ApplyMain(s, e), d, id)
  {
    NoAbort(files, s, id, d, e);
    if e.MainStart? {
      StartAdvances(files, s, id, d);
    } else if e.MainAllocated? {
      AllocateAdvances(files, s, id, d, e.place.value);
    } else if e.MainAppend? {
      AppendAdvances(files, s, id, d);
    } else if e.MainWritten? {
      WrittenAdvances(files[id], s, id, d);
    } else if e.MainComplete? {
      MainCompleteAdvances(files, s, id, d);
    } else {
      MainRenamedAdvances(files, s, id, d, e.path);
    }
  }

  lemma OwnRendererEventAdvances(files: map<string, seq<byte>>, s: System, id: string, name: string, d: nat, e: Event)
    requires Now(files, s, id, d) && Enabled(s, e) && !AtMain(e)
    requires Mine(s, id, e) && Smooth(files[id], s, id, name, d, e)
    requires |name| <= DataChannel.MAX_FILE_NAME_LENGTH
    ensures Advances(files[id], s, d, s.(r := ApplyRenderer(s, e)), Next(s, id, d, e), id)
  {
    if e.Deliver? {
      DeliverAdvances(files, s, id, name, d);
    } else {
      assert TransferOk(files[id], s.r.transfers[id]);
      if e.StartReplied? {
        StartRepliedAdvances(files[id], s, id, d);
      } else if e.TaskStarts? {
        TaskStartsAdvances(files[id], s, id, d);
      } else if e.AppendReplied? {
        AppendRepliedAdvances(files[id], s, id, d);
      } else {
        QueueAwaitedAdvances(files[id], s, id, d, e.k);
      }
    }
  }

  lemma SmoothEvent(files: map<string, seq<byte>>, s: System, id: string, name: string, d: nat, e: Event)
    requires Now(files, s, id, d) && Legal(files, s, e)
    requires Smooth(files[id], s, id, name, d, e) && |name| <= DataChannel.MAX_FILE_NAME_LENGTH
    ensures Now(files, Apply(s, e), id, Next(s, id, d, e))
    ensures Remaining(files[id], Apply(s, e), id, Next(s, id, d, e))
         == Remaining(files[id], s, id, d) - if Mine(s, id, e) then 1 else 0
  {
    EventKeepsInv(files, s, e);
    EventKeepsBounded(s, e);
    if !Mine(s, id, e) {
      EventElsewhere(files, s, id, e);
      UntouchedStaysOnCourse(files[id], s, Apply(s, e), id, d);
    } else if AtMain(e) {
      OwnMainEventAdvances(files, s, id, name, d, e);
    } else {
      OwnRendererEventAdvances(files, s, id, name, d, e);
    }
  }

  // ----- some step of the transfer is always possible until it is done

  // A path longer than every name in use is free.
  lemma FreePathExists(s: System)
    ensures exists path :: MayAllocate(s, path)
  {
    var n := LongestName(s.st.files.Keys + s.st.sessions.Keys);
    var path := seq(n + 6, _ => 'x');
    forall q | q in s.st.sessions
      ensures path != TempOf(q)
    {
      assert q in s.st.files.Keys + s.st.sessions.Keys;
      assert |TempOf(q)| == |q| + 5;
    }
    assert |TempOf(path)| == |path| + 5;
    assert path !in s.st.files.Keys + s.st.sessions.Keys && TempOf(path) !in s.st.files.Keys + s.st.sessions.Keys;
    assert MayAllocate(s, path);
  }

  ghost function LongestName(names: set<Path>): (n: nat)
    ensures forall p :: p in names ==> |p| <= n
  {
    if names == {} then 0
    else
      var p :| p in names;
      Max(|p|, LongestName(names - {p}))
  }

  ghost predicate SomeStep(files: map<string, seq<byte>>, s: System, id: string, name: string, d: nat) {
    exists e :: Possibly(files, s, id, name, d, e)
  }

  ghost predicate Possibly(files: map<string, seq<byte>>, s: System, id: string, name: string, d: nat, e: Event) {
    id in files && Legal(files, s, e) && Mine(s, id, e) && Smooth(files[id], s, id, name, d, e)
  }

  lemma NextMessagePossible(files: map<string, seq<byte>>, s: System, id: string, name: string, d: nat)
    requires Now(files, s, id, d) && d < ChunkCount(|files[id]|) + 2
    requires |name| <= DataChannel.MAX_FILE_NAME_LENGTH && (d == 0 ==> |s.r.registered| < MAX_INCOMING_TRANSFERS)
    ensures SomeStep(files, s, id, name, d)
  {
    var m := Transcript(id, name, files[id])[d];
    TranscriptAt(id, name, files[id], d);
    TranscriptPassesSanitizer(id, name, files[id], d);
    assert Possibly(files, s, id, name, d, Deliver(m));
  }

  lemma CallStepPossible(files: map<string, seq<byte>>, s: System, id: string, name: string, d: nat)
    requires id in files && id in s.r.transfers && !s.r.transfers[id].call.NoCall?
    requires s.r.transfers[id].call.AppendWriting? ==> s.r.transfers[id].call.target in s.st.sessions
    ensures SomeStep(files, s, id, name, d)
  {
    match s.r.transfers[id].call
    case StartSent => assert Possibly(files, s, id, name, d, MainStart(id));
    case StartAllocating =>
      FreePathExists(s);
      var path :| MayAllocate(s, path);
      assert Possibly(files, s, id, name, d, MainAllocated(id, Some(path)));
    case StartReply(_) => assert Possibly(files, s, id, name, d, FileTransfer.StartReplied(id));
    case AppendSent(_, _) => assert Possibly(files, s, id, name, d, MainAppend(id));
    case AppendWriting(_, _, target) => assert Possibly(files, s, id, name, d, MainWritten(id, true));
    case AppendReply(_, _, _) => assert Possibly(files, s, id, name, d, FileTransfer.AppendReplied(id));
  }

  lemma QueueStepPossible(files: map<string, seq<byte>>, s: System, id: string, name: string, d: nat)
    requires Now(files, s, id, d) && d == ChunkCount(|files[id]|) + 2 && s.r.transfers[id].call.NoCall?
    requires !Fired(files[id], s.r.transfers[id], d)
    ensures SomeStep(files, s, id, name, d)
  {
    var e := if s.r.transfers[id].queue != [] then TaskStarts(id) else QueueAwaited(id, 0);
    if s.r.transfers[id].queue == [] {
      IdleQueue(files[id], s.r.transfers[id], d);
    }
    assert Enabled(s, e);
    assert Possibly(files, s, id, name, d, e);
  }

  lemma IdleQueue(file: seq<byte>, t: Transfer, d: nat)
    requires QueueOnCourse(file, t, d) && d == ChunkCount(|file|) + 2 && t.call.NoCall? && t.queue == []
    ensures t.settled == ChunkCount(|file|) + 1
  {
    assert |Pending(file, Taken(t), ChunksDelivered(file, d))| == 0;
  }

  lemma LastStepPossible(files: map<string, seq<byte>>, s: System, id: string, name: string, d: nat)
    requires Now(files, s, id, d) && d == ChunkCount(|files[id]|) + 2 && s.r.transfers[id].call.NoCall?
    requires Fired(files[id], s.r.transfers[id], d) && Remaining(files[id], s, id, d) > 0
    ensures SomeStep(files, s, id, name, d)
  {
    if s.r.completeCalls[id] > 0 {
      assert Possibly(files, s, id, name, d, MainComplete(id));
    } else {
      assert InSet(s, id, s.renames);
      RenamePossible(files, s, id, name, d);
    }
  }

  lemma RenamePossible(files: map<string, seq<byte>>, s: System, id: string, name: string, d: nat)
    requires id in files && InSet(s, id, s.renames)
    ensures SomeStep(files, s, id, name, d)
  {
    var p :| p in s.renames && p in s.owner && s.owner[p] == id;
    assert Possibly(files, s, id, name, d, MainRenamed(p, true));
  }

  // ----- runs

  // How many of the transfer's messages a run delivers, and how many of its steps it takes.
  function DeliveredCount(events: seq<Event>, id: string): nat {
    if events == [] then 0
    else
      var last := events[|events| - 1];
      DeliveredCount(events[..|events| - 1], id) + if last.Deliver? && last.m.transferId == id then 1 else 0
  }

  ghost function StepCount(start: System, events: seq<Event>, id: string): nat {
    if events == [] then 0
    else
      var front := events[..|events| - 1];
      StepCount(start, front, id) + if Mine(After(start, front), id, events[|events| - 1]) then 1 else 0
  }

  ghost predicate SmoothRun(files: map<string, seq<byte>>, start: System, id: string, name: string, events: seq<Event>) {
    events == []
    || var front, last := events[..|events| - 1], events[|events| - 1];
       && SmoothRun(files, start, id, name, front)
       && Legal(files, After(start, front), last)
       && id in files && Smooth(files[id], After(start, front), id, name, DeliveredCount(front, id), last)
  }

  lemma {:induction false} SmoothRunStaysOnCourse(
    files: map<string, seq<byte>>, disk: Files, id: string, name: string, events: seq<Event>)
    requires ProperFiles(files) && id in files && files[id] != [] && |name| <= DataChannel.MAX_FILE_NAME_LENGTH
    requires SmoothRun(files, Initial(disk), id, name, events)
    ensures var s, d := After(Initial(disk), events), DeliveredCount(events, id);
      && Now(files, s, id, d)
      && StepCount(Initial(disk), events, id) + Remaining(files[id], s, id, d) == 5 * ChunkCount(|files[id]|) + 8
  {
    if events == [] {
      StartIsOnCourse(files, disk, id);
    } else {
      var front, last := events[..|events| - 1], events[|events| - 1];
      SmoothRunStaysOnCourse(files, disk, id, name, front);
      SmoothEvent(files, After(Initial(disk), front), id, name, DeliveredCount(front, id), last);
      OneMoreEvent(Initial(disk), id, front, last, events);
    }
  }

  lemma StartIsOnCourse(files: map<string, seq<byte>>, disk: Files, id: string)
    requires ProperFiles(files) && id in files && files[id] != []
    ensures Now(files, Initial(disk), id, 0)
    ensures Remaining(files[id], Initial(disk), id, 0) == 5 * ChunkCount(|files[id]|) + 8
  {
  }

  lemma OneMoreEvent(start: System, id: string, front: seq<Event>, last: Event, events: seq<Event>)
    requires events != [] && front == events[..|events| - 1] && last == events[|events| - 1]
    requires Enabled(After(start, front), last)
    ensures After(start, events) == Apply(After(start, front), last)
    ensures DeliveredCount(events, id) == Next(After(start, front), id, DeliveredCount(front, id), last)
    ensures StepCount(start, events, id) == StepCount(start, front, id) + if Mine(After(start, front), id, last) then 1 else 0
  {
  }

  /** Every smooth run of a transfer of a file of at least one byte: it is never rejected or failed;
      until it has taken 5 * ceil(size / 49152) + 8 steps another one is possible (given a free
      place when it begins); it never takes more; and then its file is saved, byte for byte. */
  lemma Delivery(files: map<string, seq<byte>>, disk: Files, id: string, name: string, events: seq<Event>)
    requires ProperFiles(files) && id in files && files[id] != [] && |name| <= DataChannel.MAX_FILE_NAME_LENGTH
    requires SmoothRun(files, Initial(disk), id, name, events)
    ensures var s, d := After(Initial(disk), events), DeliveredCount(events, id);
      var steps, all := StepCount(Initial(disk), events, id), 5 * ChunkCount(|files[id]|) + 8;
      && (id in s.r.transfers ==> !s.r.transfers[id].failed && !s.r.transfers[id].rejected)
      && steps <= all
      && (steps < all ==> (d == 0 ==> |s.r.registered| < MAX_INCOMING_TRANSFERS) ==> SomeStep(files, s, id, name, d))
      && (steps == all ==> exists p :: p in s.saved && p in s.owner && s.owner[p] == id
                             && p in s.st.files && s.st.files[p] == files[id])
  {
    SmoothRunStaysOnCourse(files, disk, id, name, events);
    var s, d := After(Initial(disk), events), DeliveredCount(events, id);
    RemainingIsNat(files[id], s, id, d);
    if Remaining(files[id], s, id, d) == 0 {
      var p :| p in s.saved && p in s.owner && s.owner[p] == id;
      assert SessionOk(files[id], s, p);
    } else if d == 0 ==> |s.r.registered| < MAX_INCOMING_TRANSFERS {
      StepPossible(files, s, id, name, d);
    }
  }

  lemma RemainingIsNat(file: seq<byte>, s: System, id: string, d: nat)
    requires OnCourse(file, s, id, d)
    ensures Remaining(file, s, id, d) >= 0
    ensures Remaining(file, s, id, d) == 0 ==> InSet(s, id, s.saved)
  {
    if d > 0 {
      var t := s.r.transfers[id];
      assert Taken(t) <= ChunkCount(|file|);
    }
  }

  lemma StepPossible(files: map<string, seq<byte>>, s: System, id: string, name: string, d: nat)
    requires Now(files, s, id, d) && Remaining(files[id], s, id, d) > 0
    requires |name| <= DataChannel.MAX_FILE_NAME_LENGTH && (d == 0 ==> |s.r.registered| < MAX_INCOMING_TRANSFERS)
    ensures SomeStep(files, s, id, name, d)
  {
    if d < ChunkCount(|files[id]|) + 2 {
      NextMessagePossible(files, s, id, name, d);
    } else if !s.r.transfers[id].call.NoCall? {
      assert OwnsTarget(s, id, s.r.transfers[id]);
      CallStepPossible(files, s, id, name, d);
    } else if !Fired(files[id], s.r.transfers[id], d) {
      QueueStepPossible(files, s, id, name, d);
    } else {
      LastStepPossible(files, s, id, name, d);
    }
  }
}
