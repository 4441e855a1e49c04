// The renderer's side of an incoming transfer. Each transfer has a promise queue: a start call,
// then one task per chunk message, at most one call to the main process outstanding. A task that
// throws rejects the queue and every task behind it. A complete message waits for the tasks that
// were queued before it. Handlers are cut at their awaits, and a reply is processed as a step.

module FileReceiver {
  import opened Basics
  import opened Checksum
  import opened DataChannel
  import opened FileStore
  import Base64

  const MAX_INCOMING_TRANSFERS: nat := 4
  const INCOMING_FILE_TRANSFER_TIMEOUT_MS: nat := 30_000

  datatype Task = Task(index: int, data: string)

  // The outstanding call to the main process: sent, being worked on there, or replied to.
  datatype Call =
    | NoCall
    | StartSent
    | StartAllocating
    | StartReply(path: Option<Path>)
    | AppendSent(index: int, chunk: seq<byte>)
    | AppendWriting(index: int, chunk: seq<byte>, target: Path)
    | AppendReply(index: int, chunk: seq<byte>, ok: bool)

  // A complete message that waits until `after` queue entries have settled.
  datatype Waiter = Waiter(after: nat, checksum: string)

  datatype Transfer = Transfer(
    name: string, size: nat, checksum: uint32, failed: bool,
    nextChunkIndex: nat, receivedBytes: nat, path: Option<Path>,
    queue: seq<Task>, call: Call, settled: nat, rejected: bool, waiters: seq<Waiter>,
    deadline: Option<nat>, startedAt: nat)

  // `registered` holds the keys of the map of incoming transfers; `transfers` also keeps the
  // transfers that left the map while queued callbacks still hold them. `abortCalls` and
  // `completeCalls` are the calls on their way to the main process.
  datatype Renderer = Renderer(
    transfers: map<string, Transfer>, registered: set<string>,
    abortCalls: multiset<string>, completeCalls: multiset<string>, now: nat)

  function QueueLength(t: Transfer): nat {
    t.settled + |t.queue| + if t.call.NoCall? then 0 else 1
  }

  function NewTransfer(name: string, size: nat, now: nat): Transfer {
    Transfer(name, size, FNV_OFFSET, false, 0, 0, None, [], StartSent, 0, false, [],
             Some(now + INCOMING_FILE_TRANSFER_TIMEOUT_MS), now)
  }

  // beginIncomingFileTransfer
  function Begin(r: Renderer, id: string, name: string, size: int): Renderer {
    var safeSize := Max(0, size);
    if safeSize > MAX_FILE_TRANSFER_BYTES || id in r.registered || |r.registered| >= MAX_INCOMING_TRANSFERS then r
    else r.(transfers := r.transfers[id := NewTransfer(name, safeSize, r.now)], registered := r.registered + {id})
  }

  // failIncomingFileTransferInternal
  function Fail(r: Renderer, id: string): Renderer {
    if id !in r.registered || id !in r.transfers || r.transfers[id].failed then r
    else r.(transfers := r.transfers[id := r.transfers[id].(failed := true, deadline := None)],
            registered := r.registered - {id}, abortCalls := r.abortCalls + multiset{id})
  }

  // A task of the queue throws: the queue and everything behind it rejects.
  function Reject(r: Renderer, id: string): Renderer
    requires id in r.transfers
  {
    var t := r.transfers[id];
    Fail(r.(transfers := r.transfers[id := t.(rejected := true, call := NoCall, queue := [])]), id)
  }

  // appendIncomingFileChunk: a task is queued.
  function Enqueue(r: Renderer, id: string, index: int, data: string): Renderer {
    if id !in r.registered || id !in r.transfers || index < 0 then r
    else
      var t := r.transfers[id];
      r.(transfers := r.transfers[id := t.(queue := t.queue + [Task(index, data)])])
  }

  predicate TaskReady(r: Renderer, id: string) {
    id in r.transfers && r.transfers[id].call.NoCall? && !r.transfers[id].rejected && r.transfers[id].queue != []
  }

  // The next task of the queue runs up to its call.
  function RunTask(r: Renderer, id: string): Renderer
    requires TaskReady(r, id)
  {
    var t := r.transfers[id];
    var task := t.queue[0];
    var rest := t.(queue := t.queue[1..]);
    if t.failed then r.(transfers := r.transfers[id := rest.(settled := t.settled + 1)])
    else if task.index != t.nextChunkIndex then Reject(r, id)
    else match Base64.Atob(task.data)
      case None => Reject(r, id)
      case Some(chunk) =>
        if t.receivedBytes + |chunk| > t.size then Reject(r, id)
        else r.(transfers := r.transfers[id := rest.(call := AppendSent(task.index, chunk))])
  }

  // The reply to the start call arrives.
  function StartReplied(r: Renderer, id: string): Renderer
    requires id in r.transfers && r.transfers[id].call.StartReply?
  {
    var t := r.transfers[id];
    if t.call.path.None? then Reject(r, id)
    else r.(transfers := r.transfers[id := t.(path := t.call.path, call := NoCall, settled := t.settled + 1)])
  }

  // The reply to an append call arrives; the timer is armed again even after a failure.
  function AppendReplied(r: Renderer, id: string): Renderer
    requires id in r.transfers && r.transfers[id].call.AppendReply?
  {
    var t := r.transfers[id];
    if !t.call.ok then Reject(r, id)
    else r.(transfers := r.transfers[id := Counted(t, r.now)])
  }

  function Counted(t: Transfer, now: nat): Transfer
    requires t.call.AppendReply?
  {
    t.(receivedBytes := t.receivedBytes + |t.call.chunk|,
       checksum := Fold(t.checksum, t.call.chunk),
       nextChunkIndex := t.nextChunkIndex + 1,
       deadline := Some(now + INCOMING_FILE_TRANSFER_TIMEOUT_MS),
       call := NoCall, settled := t.settled + 1)
  }

  // completeIncomingFileTransfer up to its first await.
  function AwaitQueue(r: Renderer, id: string, checksum: string): Renderer {
    if id !in r.registered || id !in r.transfers then r
    else
      var t := r.transfers[id];
      r.(transfers := r.transfers[id := t.(waiters := t.waiters + [Waiter(QueueLength(t), checksum)])])
  }

  predicate WaiterReady(r: Renderer, id: string, k: nat) {
    id in r.transfers && k < |r.transfers[id].waiters|
    && (r.transfers[id].rejected || r.transfers[id].waiters[k].after <= r.transfers[id].settled)
  }

  // completeIncomingFileTransfer after the queue has settled.
  function FinishWaiting(r: Renderer, id: string, k: nat): Renderer
    requires WaiterReady(r, id, k)
  {
    var t := r.transfers[id];
    var rest := t.(waiters := t.waiters[..k] + t.waiters[k + 1..]);
    if t.failed then r.(transfers := r.transfers[id := rest])
    else
      var left := r.(transfers := r.transfers[id := rest.(deadline := None)], registered := r.registered - {id});
      if t.receivedBytes != t.size || t.waiters[k].checksum != FormatFileTransferChecksum(t.checksum)
      then left.(abortCalls := left.abortCalls + multiset{id})
      else left.(completeCalls := left.completeCalls + multiset{id})
  }

  predicate TimerDue(r: Renderer, id: string) {
    id in r.transfers && r.transfers[id].deadline.Some? && r.transfers[id].deadline.value <= r.now
  }

  function TimeOut(r: Renderer, id: string): Renderer
    requires TimerDue(r, id)
  {
    Fail(r.(transfers := r.transfers[id := r.transfers[id].(deadline := None)]), id)
  }

  // failIncomingFileTransfers: the channel closed. The transfers are not marked as failed.
  function Interrupt(r: Renderer): Renderer {
    r.(transfers := map id | id in r.transfers ::
         if id in r.registered then r.transfers[id].(deadline := None) else r.transfers[id],
       registered := {}, abortCalls := r.abortCalls + multiset(r.registered))
  }

  // No timer is overdue after the clock has moved on by `ms`.
  predicate MayPass(r: Renderer, ms: nat) {
    forall id :: id in r.transfers && r.transfers[id].deadline.Some? ==> r.now + ms <= r.transfers[id].deadline.value
  }

  function Receive(r: Renderer, m: Message): Renderer {
    match m
    case FileStart(id, name, size) => Begin(r, id, name, size)
    case FileChunk(id, index, data) => Enqueue(r, id, index, data)
    case FileComplete(id, checksum) => AwaitQueue(r, id, checksum)
    case FileAbort(id) => Fail(r, id)
  }
}
