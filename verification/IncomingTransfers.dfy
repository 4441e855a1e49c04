// The receiving part of the renderer over its mutable state: the map of incoming transfers and
// the transfer objects that queued callbacks keep hold of. Each method is one part of a method of
// the client, up to or after an await, and is proved to be the step of FileReceiver it is named for.

module IncomingTransfers {
  import opened Basics
  import opened Checksum
  import opened DataChannel
  import opened FileStore
  import opened FileReceiver
  import Base64

  class IncomingFileTransfer {
    const name: string
    const size: nat
    const startedAt: nat
    var checksum: uint32
    var failed: bool
    var nextChunkIndex: nat
    var receivedBytes: nat
    var path: Option<Path>
    // The promise queue: tasks not started, the outstanding call, how many entries have settled,
    // whether it has rejected, and the complete messages waiting for it.
    var queue: seq<Task>
    var call: Call
    var settled: nat
    var rejected: bool
    var waiters: seq<Waiter>
    // When the armed timer fires.
    var timeoutTimer: Option<nat>

    constructor (name: string, size: nat, now: nat)
      ensures View() == NewTransfer(name, size, now)
    {
      this.name, this.size, startedAt := name, size, now;
      checksum, failed, nextChunkIndex, receivedBytes, path := FNV_OFFSET, false, 0, 0, None;
      queue, call, settled, rejected, waiters := [], StartSent, 0, false, [];
      timeoutTimer := Some(now + INCOMING_FILE_TRANSFER_TIMEOUT_MS);
    }

    method ClearTimer()
      modifies this`timeoutTimer
      ensures View() == old(View()).(deadline := None)
    {
      timeoutTimer := None;
    }

    // The next task does nothing: it throws without a call when the transfer has failed.
    method SkipTask()
      requires queue != []
      modifies this
      ensures View() == old(View()).(queue := old(queue)[1..], settled := old(settled) + 1)
    {
      queue := queue[1..];
      settled := settled + 1;
    }

    method SendAppend(index: int, chunk: seq<byte>)
      requires queue != []
      modifies this
      ensures View() == old(View()).(queue := old(queue)[1..], call := AppendSent(index, chunk))
    {
      queue := queue[1..];
      call := AppendSent(index, chunk);
    }

    // A chunk has been written: it is counted, and the timer armed again.
    method CountChunk(now: nat)
      requires call.AppendReply?
      modifies this
      ensures View() == Counted(old(View()), now)
    {
      receivedBytes := receivedBytes + |call.chunk|;
      checksum := UpdateFileTransferChecksum(checksum, call.chunk);
      nextChunkIndex := nextChunkIndex + 1;
      timeoutTimer := Some(now + INCOMING_FILE_TRANSFER_TIMEOUT_MS);
      call := NoCall;
      settled := settled + 1;
    }

    ghost function View(): Transfer
      reads this
    {
      Transfer(name, size, checksum, failed, nextChunkIndex, receivedBytes, path,
               queue, call, settled, rejected, waiters, timeoutTimer, startedAt)
    }
  }

  class Client {
    var incomingTransfers: map<string, IncomingFileTransfer>
    var now: nat
    // Calls sent to the main process.
    var abortCalls: multiset<string>
    var completeCalls: multiset<string>
    // Every transfer made so far, also those no longer in the map.
    ghost var transfers: map<string, IncomingFileTransfer>

    ghost predicate Valid()
      reads this, transfers.Values
    {
      && (forall id :: id in incomingTransfers ==> id in transfers && transfers[id] == incomingTransfers[id])
      && (forall i, j :: i in transfers && j in transfers && transfers[i] == transfers[j] ==> i == j)
    }

    ghost function State(): Renderer
      reads this, transfers.Values
    {
      Renderer(map id | id in transfers :: transfers[id].View(), incomingTransfers.Keys,
               abortCalls, completeCalls, now)
    }

    ghost predicate Holds(id: string, transfer: IncomingFileTransfer)
      reads this
    {
      id in transfers && transfers[id] == transfer
    }

    // Only the object of transfer id has changed.
    twostate lemma OneChanged(id: string)
      requires transfers == old(transfers) && id in transfers
      requires forall x :: x in transfers && x != id ==> transfers[x].View() == old(transfers[x].View())
      ensures State().transfers == old(State().transfers)[id := transfers[id].View()]
    {
    }

    // A transfer object has been added.
    twostate lemma OneAdded(id: string)
      requires id in transfers && transfers == old(transfers)[id := transfers[id]]
      requires forall x :: x in old(transfers) && x != id ==> transfers[x].View() == old(transfers[x].View())
      ensures State().transfers == old(State().transfers)[id := transfers[id].View()]
    {
    }

    constructor ()
      ensures Valid() && State() == Renderer(map[], {}, multiset{}, multiset{}, 0)
    {
      incomingTransfers, now, abortCalls, completeCalls, transfers := map[], 0, multiset{}, multiset{}, map[];
    }

    method BeginIncomingFileTransfer(id: string, name: string, size: int)
      requires Valid() && (id in transfers ==> id in incomingTransfers)
      modifies this
      ensures Valid() && State() == Begin(old(State()), id, name, size)
    {
      var safeSize := Max(0, size);
      if safeSize > MAX_FILE_TRANSFER_BYTES || id in incomingTransfers {
        return;
      }
      if |incomingTransfers.Keys| >= MAX_INCOMING_TRANSFERS {
        return;
      }
      var transfer := new IncomingFileTransfer(name, safeSize, now);
      Register(id, transfer);
    }

    method Register(id: string, transfer: IncomingFileTransfer)
      requires Valid() && id !in incomingTransfers && id !in transfers && transfer !in transfers.Values
      modifies this`incomingTransfers, this`transfers
      ensures Valid() && State() == old(State()).(transfers := old(State()).transfers[id := transfer.View()],
                                                 registered := old(State()).registered + {id})
    {
      incomingTransfers := incomingTransfers[id := transfer];
      transfers := transfers[id := transfer];
      OneAdded(id);
    }

    method FailIncomingFileTransfer(id: string)
      requires Valid()
      modifies this, transfers.Values
      ensures Valid() && transfers == old(transfers) && State() == Fail(old(State()), id)
    {
      if id !in incomingTransfers || incomingTransfers[id].failed {
        return;
      }
      var transfer := incomingTransfers[id];
      transfer.failed := true;
      incomingTransfers := incomingTransfers - {id};
      transfer.timeoutTimer := None;
      abortCalls := abortCalls + multiset{id};
      OneChanged(id);
    }

    method AppendIncomingFileChunk(id: string, index: int, data: string)
      requires Valid()
      modifies transfers.Values
      ensures Valid() && State() == Enqueue(old(State()), id, index, data)
    {
      if id !in incomingTransfers || index < 0 {
        return;
      }
      var transfer := incomingTransfers[id];
      transfer.queue := transfer.queue + [Task(index, data)];
      OneChanged(id);
    }

    method RejectQueue(id: string, transfer: IncomingFileTransfer)
      requires Valid() && Holds(id, transfer)
      modifies this, transfers.Values
      ensures Valid() && transfers == old(transfers) && State() == Reject(old(State()), id)
    {
      transfer.rejected := true;
      transfer.call := NoCall;
      transfer.queue := [];
      OneChanged(id);
      FailIncomingFileTransfer(id);
    }

    // A queued task runs up to its call to the main process.
    method RunQueuedTask(id: string, transfer: IncomingFileTransfer)
      requires Valid() && Holds(id, transfer) && TaskReady(State(), id)
      modifies this, transfers.Values
      ensures Valid() && transfers == old(transfers) && State() == RunTask(old(State()), id)
    {
      var task := transfer.queue[0];
      if transfer.failed {
        transfer.SkipTask();
        OneChanged(id);
        return;
      }
      if task.index != transfer.nextChunkIndex {
        RejectQueue(id, transfer);
        return;
      }
      var chunk := Base64.Atob(task.data);
      if chunk.None? || transfer.receivedBytes + |chunk.value| > transfer.size {
        RejectQueue(id, transfer);
        return;
      }
      transfer.SendAppend(task.index, chunk.value);
      OneChanged(id);
    }

    method StartReply(id: string, transfer: IncomingFileTransfer)
      requires Valid() && Holds(id, transfer) && transfer.call.StartReply?
      modifies this, transfers.Values
      ensures Valid() && transfers == old(transfers) && State() == StartReplied(old(State()), id)
    {
      if transfer.call.path.None? {
        RejectQueue(id, transfer);
        return;
      }
      transfer.path := transfer.call.path;
      transfer.call := NoCall;
      transfer.settled := transfer.settled + 1;
      OneChanged(id);
    }

    method AppendReply(id: string, transfer: IncomingFileTransfer)
      requires Valid() && Holds(id, transfer) && transfer.call.AppendReply?
      modifies this, transfers.Values
      ensures Valid() && transfers == old(transfers) && State() == AppendReplied(old(State()), id)
    {
      if transfer.call.ok {
        AppendAccepted(id, transfer);
      } else {
        RejectQueue(id, transfer);
      }
    }

    method AppendAccepted(id: string, transfer: IncomingFileTransfer)
      requires Valid() && Holds(id, transfer) && transfer.call.AppendReply? && transfer.call.ok
      modifies transfer
      ensures Valid() && State() == AppendReplied(old(State()), id)
    {
      transfer.CountChunk(now);
      OneChanged(id);
    }

    // A complete message starts to wait for the queue.
    method CompleteIncomingFileTransfer(id: string, checksum: string)
      requires Valid()
      modifies transfers.Values
      ensures Valid() && State() == AwaitQueue(old(State()), id, checksum)
    {
      if id !in incomingTransfers {
        return;
      }
      var transfer := incomingTransfers[id];
      var entries := transfer.settled + |transfer.queue| + if transfer.call.NoCall? then 0 else 1;
      transfer.waiters := transfer.waiters + [Waiter(entries, checksum)];
      OneChanged(id);
    }

    // The queue has settled for the k-th waiting complete message.
    method QueueSettled(id: string, transfer: IncomingFileTransfer, k: nat)
      requires Valid() && Holds(id, transfer) && WaiterReady(State(), id, k)
      modifies this, transfers.Values
      ensures Valid() && transfers == old(transfers) && State() == FinishWaiting(old(State()), id, k)
    {
      var waiter := transfer.waiters[k];
      transfer.waiters := transfer.waiters[..k] + transfer.waiters[k + 1..];
      if !transfer.failed {
        incomingTransfers := incomingTransfers - {id};
        transfer.timeoutTimer := None;
        if transfer.receivedBytes != transfer.size {
          abortCalls := abortCalls + multiset{id};
        } else if waiter.checksum != FormatFileTransferChecksum(transfer.checksum) {
          abortCalls := abortCalls + multiset{id};
        } else {
          completeCalls := completeCalls + multiset{id};
        }
      }
      OneChanged(id);
    }

    method TimerFires(id: string, transfer: IncomingFileTransfer)
      requires Valid() && Holds(id, transfer) && TimerDue(State(), id)
      modifies this, transfers.Values
      ensures Valid() && transfers == old(transfers) && State() == TimeOut(old(State()), id)
    {
      transfer.timeoutTimer := None;
      OneChanged(id);
      FailIncomingFileTransfer(id);
    }

    // The channel has closed. The map is emptied at once, and the entries are then gone through.
    method FailIncomingFileTransfers()
      requires Valid()
      modifies this, transfers.Values
      ensures Valid() && transfers == old(transfers) && State() == Interrupt(old(State()))
    {
      var entries := incomingTransfers;
      incomingTransfers := map[];
      AbortEach(entries);
      TimersCleared(entries);
      Interrupted(entries);
    }

    twostate lemma Interrupted(entries: map<string, IncomingFileTransfer>)
      requires transfers == old(transfers) && entries == old(incomingTransfers) && old(Valid())
      requires incomingTransfers == map[] && now == old(now) && completeCalls == old(completeCalls)
      requires abortCalls == old(abortCalls) + multiset(entries.Keys)
      requires forall id :: id in transfers ==>
                 transfers[id].View() == if id in entries.Keys then old(transfers[id].View()).(deadline := None)
                                         else old(transfers[id].View())
      ensures State() == Interrupt(old(State()))
    {
      ManyChanged(entries.Keys);
    }

    twostate lemma TimersCleared(entries: map<string, IncomingFileTransfer>)
      requires transfers == old(transfers) && old(Valid()) && entries == old(incomingTransfers)
      requires forall id :: id in entries ==> entries[id].timeoutTimer == None
      requires forall t :: t in transfers.Values ==>
                 t.View() == old(t.View()) || (t in entries.Values && t.View() == old(t.View()).(deadline := t.timeoutTimer))
      ensures forall id :: id in transfers ==>
                transfers[id].View() == if id in entries.Keys then old(transfers[id].View()).(deadline := None)
                                        else old(transfers[id].View())
    {
    }

    method AbortEach(entries: map<string, IncomingFileTransfer>)
      modifies this`abortCalls, entries.Values`timeoutTimer
      ensures forall id :: id in entries ==> entries[id].timeoutTimer == None
      ensures abortCalls == old(abortCalls) + multiset(entries.Keys)
    {
      var left := entries.Keys;
      while left != {}
        invariant left <= entries.Keys
        invariant forall id :: id in entries && id !in left ==> entries[id].timeoutTimer == None
        invariant abortCalls == old(abortCalls) + multiset(entries.Keys - left)
        decreases |left|
      {
        var id :| id in left;
        entries[id].ClearTimer();
        abortCalls := abortCalls + multiset{id};
        OneLess(entries.Keys, left, id);
        left := left - {id};
      }
      assert entries.Keys - left == entries.Keys;
    }

    // The timers of the given transfers have been cleared.
    twostate lemma ManyChanged(ids: set<string>)
      requires transfers == old(transfers)
      requires forall id :: id in transfers ==>
                 transfers[id].View() == if id in ids then old(transfers[id].View()).(deadline := None)
                                         else old(transfers[id].View())
      ensures State().transfers == map id | id in transfers ::
                if id in ids then old(transfers[id].View()).(deadline := None) else old(transfers[id].View())
    {
    }
  }

  lemma OneLess(all: set<string>, left: set<string>, id: string)
    requires left <= all && id in left
    ensures multiset(all - (left - {id})) == multiset(all - left) + multiset{id}
  {
    assert all - (left - {id}) == (all - left) + {id};
  }
}
