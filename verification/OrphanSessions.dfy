// The tables of the two processes do not always name the same transfers: an abort that reaches the
// main process while the start handler is still allocating a path finds no session to forget, and
// the session that is made afterwards stays.

module OrphanSessions {
  import opened Basics
  import opened DataChannel
  import opened FileStore
  import opened FileReceiver
  import opened FileTransfer
  import opened FileTermination
  import opened FileDelivery

  // A session whose transfer is not registered any more, with no call on its way that would end it.
  ghost predicate Orphaned(s: System, id: string) {
    id in s.st.saves && id !in s.r.registered && id !in s.r.abortCalls && id !in s.r.completeCalls
  }

  lemma Extended(files: map<string, seq<byte>>, start: System, events: seq<Event>, e: Event)
    requires Run(files, start, events) && Legal(files, After(start, events), e)
    ensures Run(files, start, events + [e]) && After(start, events + [e]) == Apply(After(start, events), e)
  {
    assert (events + [e])[..|events|] == events;
  }

  function Begun(disk: Files, id: string, t: Transfer): System {
    System(Renderer(map[id := t], {id}, multiset{}, multiset{}, 0), Store(map[], map[], disk), map[], {}, {}, {})
  }

  function Aborted(disk: Files, id: string, t: Transfer, calls: multiset<string>): System {
    System(Renderer(map[id := t], {}, calls, multiset{}, 0), Store(map[], map[], disk), map[], {}, {}, {})
  }

  lemma StartArrives(disk: Files, id: string, name: string, size: nat)
    requires IsToken(id, DataChannel.MAX_TRANSFER_ID_LENGTH) && size <= MAX_FILE_TRANSFER_BYTES
    requires |name| <= DataChannel.MAX_FILE_NAME_LENGTH
    ensures Enabled(Initial(disk), Deliver(FileStart(id, name, size)))
    ensures Apply(Initial(disk), Deliver(FileStart(id, name, size))) == Begun(disk, id, NewTransfer(name, size, 0))
  {
    DataChannel.SanitizeTokenId(id);
    assert Sanitize(FileStart(id, name, size)) == Some(FileStart(id, name, size));
  }

  lemma StartIsAllocating(disk: Files, id: string, t: Transfer)
    requires IsToken(id, DataChannel.MAX_TRANSFER_ID_LENGTH) && t.call.StartSent?
    requires |t.name| <= DataChannel.MAX_FILE_NAME_LENGTH && t.size <= MAX_FILE_TRANSFER_BYTES
    ensures Enabled(Begun(disk, id, t), MainStart(id))
    ensures Apply(Begun(disk, id, t), MainStart(id)) == Begun(disk, id, t.(call := StartAllocating))
  {
    FileStore.SanitizeTokenId(id);
  }

  lemma AbortArrives(disk: Files, id: string, t: Transfer)
    requires IsToken(id, DataChannel.MAX_TRANSFER_ID_LENGTH) && !t.failed
    ensures Enabled(Begun(disk, id, t), Deliver(FileAbort(id)))
    ensures Apply(Begun(disk, id, t), Deliver(FileAbort(id)))
            == Aborted(disk, id, t.(failed := true, deadline := None), multiset{id})
  {
    DataChannel.SanitizeTokenId(id);
    assert Sanitize(FileAbort(id)) == Some(FileAbort(id));
  }

  lemma AbortFindsNothing(disk: Files, id: string, t: Transfer)
    ensures Enabled(Aborted(disk, id, t, multiset{id}), MainAbort(id))
    ensures Apply(Aborted(disk, id, t, multiset{id}), MainAbort(id)) == Aborted(disk, id, t, multiset{})
  {
    assert multiset{id} - multiset{id} == multiset{};
  }

  lemma AllocationEnds(disk: Files, id: string, t: Transfer, path: Path)
    requires IsToken(id, DataChannel.MAX_TRANSFER_ID_LENGTH) && t.call.StartAllocating?
    requires path !in disk && TempOf(path) !in disk
    ensures Enabled(Aborted(disk, id, t, multiset{}), MainAllocated(id, Some(path)))
    ensures Orphaned(Apply(Aborted(disk, id, t, multiset{}), MainAllocated(id, Some(path))), id)
  {
    FileStore.SanitizeTokenId(id);
  }

  ghost predicate Reaches(files: map<string, seq<byte>>, disk: Files, s: System) {
    exists events :: Run(files, Initial(disk), events) && After(Initial(disk), events) == s
  }

  lemma ReachesNext(files: map<string, seq<byte>>, disk: Files, s: System, e: Event)
    requires Reaches(files, disk, s) && Legal(files, s, e)
    ensures Reaches(files, disk, Apply(s, e))
  {
    var events :| Run(files, Initial(disk), events) && After(Initial(disk), events) == s;
    Extended(files, Initial(disk), events, e);
    assert Run(files, Initial(disk), events + [e]);
  }

  lemma ReachesInitial(files: map<string, seq<byte>>, disk: Files)
    ensures Reaches(files, disk, Initial(disk))
  {
    assert Run(files, Initial(disk), []) && After(Initial(disk), []) == Initial(disk);
  }

  /** For every transfer and every free path there is a run that leaves such a session behind. */
  lemma AbortCanOvertakeStart(files: map<string, seq<byte>>, disk: Files, id: string, name: string, path: Path)
    requires ProperFiles(files) && id in files && |name| <= DataChannel.MAX_FILE_NAME_LENGTH
    requires path !in disk && TempOf(path) !in disk
    ensures exists s :: Reaches(files, disk, s) && Orphaned(s, id)
  {
    var t := NewTransfer(name, |files[id]|, 0);
    var u := t.(call := StartAllocating);
    var v := u.(failed := true, deadline := None);
    ReachesInitial(files, disk);
    StartArrives(disk, id, name, |files[id]|);
    ReachesNext(files, disk, Initial(disk), Deliver(FileStart(id, name, |files[id]|)));
    StartIsAllocating(disk, id, t);
    ReachesNext(files, disk, Begun(disk, id, t), MainStart(id));
    AbortArrives(disk, id, u);
    ReachesNext(files, disk, Begun(disk, id, u), Deliver(FileAbort(id)));
    AbortFindsNothing(disk, id, v);
    ReachesNext(files, disk, Aborted(disk, id, v, multiset{id}), MainAbort(id));
    AllocationEnds(disk, id, v, path);
    ReachesNext(files, disk, Aborted(disk, id, v, multiset{}), MainAllocated(id, Some(path)));
  }

  // ----- exactly when a session is orphaned

  predicate StartPending(s: System, id: string) { id in s.r.transfers && Starting(s.r.transfers[id]) }

  // An abort of the transfer is handled while its start is pending: the handler finds no entry.
  predicate AbortsEarly(s: System, id: string, e: Event) { e == MainAbort(id) && StartPending(s, id) }

  ghost predicate AbortedEarly(start: System, events: seq<Event>, id: string) {
    events != []
    && var front := events[..|events| - 1];
       AbortedEarly(start, front, id) || AbortsEarly(After(start, front), id, events[|events| - 1])
  }

  // Nothing that was queued can have settled while the start is pending.
  predicate NothingSettled(t: Transfer) {
    t.settled == 0 && !t.rejected && forall k :: 0 <= k < |t.waiters| ==> t.waiters[k].after >= 1
  }

  // While its start is pending, exactly one of three things is true of a transfer: it is registered,
  // or one abort call is on its way, or that call was handled early.
  ghost predicate PendingAccounted(s: System, id: string, early: bool)
    requires id in s.r.transfers
  {
    NothingSettled(s.r.transfers[id]) && s.r.completeCalls[id] == 0
    && s.r.abortCalls[id] == (if id in s.r.registered || early then 0 else 1)
    && !(early && id in s.r.registered)
  }

  ghost predicate Accounted(s: System, id: string, early: bool) {
    if id !in s.r.transfers then
      !early && id !in s.st.saves && id !in s.r.registered && s.r.abortCalls[id] == 0 && s.r.completeCalls[id] == 0
    else if Starting(s.r.transfers[id]) then PendingAccounted(s, id, early)
    else id in s.st.saves ==> id in s.r.registered || id in s.r.abortCalls || id in s.r.completeCalls || early
  }

  lemma UntouchedStaysAccounted(s: System, z: System, id: string, early: bool)
    requires Accounted(s, id, early) && Untouched(s, z, id)
    ensures Accounted(z, id, early)
  {
  }

  // A transfer that fails leaves the map with an abort call.
  lemma FailIsAccounted(s: System, id: string, early: bool)
    requires Accounted(s, id, early) && Bounded(s.r)
    ensures Accounted(s.(r := Fail(s.r, id)), id, early)
  {
  }

  lemma OwnMessageIsAccounted(s: System, id: string, early: bool, m: Message)
    requires Accounted(s, id, early) && Bounded(s.r) && m.transferId == id && FreshStart(s, m)
    ensures Accounted(s.(r := Receive(s.r, m)), id, early)
  {
    if m.FileAbort? {
      FailIsAccounted(s, id, early);
    } else if m.FileStart? && id !in s.r.transfers {
      assert NothingSettled(NewTransfer(m.name, Max(0, m.size), s.r.now));
    }
  }

  lemma DeliveryIsAccounted(files: map<string, seq<byte>>, s: System, id: string, early: bool, m: Message)
    requires ProperFiles(files) && Genuine(files, m) && m.transferId == id
    requires Accounted(s, id, early) && Bounded(s.r) && Enabled(s, Deliver(m))
    ensures Accounted(s.(r := DeliverTo(s.r, m)), id, early)
  {
    GenuineIsSanitary(files, m);
    var checked := Sanitize(m);
    if checked.Some? {
      OwnMessageIsAccounted(s, id, early, checked.value);
    }
  }

  lemma ClosingIsAccounted(s: System, id: string, early: bool)
    requires Accounted(s, id, early) && Bounded(s.r)
    ensures Accounted(s.(r := Interrupt(s.r)), id, early)
  {
    if id in s.r.transfers {
      var t, u := s.r.transfers[id], Interrupt(s.r).transfers[id];
      assert u == t || u == t.(deadline := None);
    }
  }

  lemma StartReplyIsAccounted(s: System, id: string, early: bool)
    requires Accounted(s, id, early) && Bounded(s.r) && Enabled(s, FileTransfer.StartReplied(id))
    ensures Accounted(s.(r := FileReceiver.StartReplied(s.r, id)), id, early)
  {
  }

  lemma TaskIsAccounted(s: System, id: string, early: bool)
    requires Accounted(s, id, early) && Bounded(s.r) && Enabled(s, TaskStarts(id))
    ensures Accounted(s.(r := RunTask(s.r, id)), id, early)
  {
  }

  lemma AppendReplyIsAccounted(s: System, id: string, early: bool)
    requires Accounted(s, id, early) && Bounded(s.r) && Enabled(s, FileTransfer.AppendReplied(id))
    ensures Accounted(s.(r := FileReceiver.AppendReplied(s.r, id)), id, early)
  {
  }

  lemma OwnWaitIsAccounted(s: System, id: string, early: bool, k: nat)
    requires Accounted(s, id, early) && Bounded(s.r) && Enabled(s, QueueAwaited(id, k))
    ensures Accounted(s.(r := FinishWaiting(s.r, id, k)), id, early)
  {
    if Starting(s.r.transfers[id]) {
      assert false;
    }
  }

  lemma OwnTimerIsAccounted(s: System, id: string, early: bool)
    requires Accounted(s, id, early) && Bounded(s.r) && Enabled(s, TimerFires(id))
    ensures Accounted(s.(r := TimeOut(s.r, id)), id, early)
  {
  }

  lemma OwnRendererEventIsAccounted(files: map<string, seq<byte>>, s: System, id: string, early: bool, e: Event)
    requires ProperFiles(files) && Accounted(s, id, early) && Bounded(s.r)
    requires Legal(files, s, e) && !AtMain(e) && Mine(s, id, e)
    ensures Accounted(s.(r := ApplyRenderer(s, e)), id, early)
  {
    if e.Deliver? {
      DeliveryIsAccounted(files, s, id, early, e.m);
    } else if e.QueueAwaited? {
      OwnWaitIsAccounted(s, id, early, e.k);
    } else if e.TimerFires? {
      OwnTimerIsAccounted(s, id, early);
    } else if e.StartReplied? {
      StartReplyIsAccounted(s, id, early);
    } else if e.TaskStarts? {
      TaskIsAccounted(s, id, early);
    } else {
      AppendReplyIsAccounted(s, id, early);
    }
  }

  lemma OwnStartIsAccounted(s: System, id: string, early: bool, e: Event)
    requires Accounted(s, id, early) && Coupled(s) && PathsOk(s) && Enabled(s, e)
    requires IsToken(id, FileStore.MAX_TRANSFER_ID_LENGTH)
    requires e == MainStart(id) || (e.MainAllocated? && e.id == id)
    ensures Accounted(ApplyMain(s, e), id, early)
  {
    FileStore.SanitizeTokenId(id);
    NoSessionWhilePending(s, id);
  }

  lemma NoSessionWhilePending(s: System, id: string)
    requires Coupled(s) && PathsOk(s)
    ensures StartPending(s, id) ==> id !in s.st.saves
  {
    assert id in s.st.saves ==> s.owner[s.st.saves[id]] == id;
  }

  lemma OwnAppendIsAccounted(s: System, id: string, early: bool, e: Event)
    requires Accounted(s, id, early) && Enabled(s, e) && IsToken(id, FileStore.MAX_TRANSFER_ID_LENGTH)
    requires e == MainAppend(id) || (e.MainWritten? && e.id == id)
    ensures Accounted(ApplyMain(s, e), id, early)
  {
    FileStore.SanitizeTokenId(id);
  }

  lemma OwnAbortIsAccounted(s: System, id: string, early: bool)
    requires Accounted(s, id, early) && Coupled(s) && PathsOk(s) && Enabled(s, MainAbort(id))
    requires IsToken(id, FileStore.MAX_TRANSFER_ID_LENGTH)
    ensures Accounted(BeginAbort(s, id), id, early || StartPending(s, id))
  {
    FileStore.SanitizeTokenId(id);
    NoSessionWhilePending(s, id);
  }

  lemma OwnCompleteIsAccounted(s: System, id: string, early: bool)
    requires Accounted(s, id, early) && PathsOk(s) && Enabled(s, MainComplete(id))
    requires IsToken(id, FileStore.MAX_TRANSFER_ID_LENGTH)
    ensures Accounted(BeginComplete(s, id), id, early)
  {
    FileStore.SanitizeTokenId(id);
    if id in s.st.saves {
      assert s.st.saves[id] in s.st.sessions;
    }
  }

  lemma OwnMainEventIsAccounted(s: System, id: string, early: bool, e: Event)
    requires PathsOk(s) && Coupled(s) && Accounted(s, id, early) && IsToken(id, FileStore.MAX_TRANSFER_ID_LENGTH)
    requires Enabled(s, e) && AtMain(e) && Mine(s, id, e)
    ensures Accounted(ApplyMain(s, e), id, early || AbortsEarly(s, id, e))
  {
    if e.MainStart? || e.MainAllocated? {
      OwnStartIsAccounted(s, id, early, e);
    } else if e.MainAppend? || e.MainWritten? {
      OwnAppendIsAccounted(s, id, early, e);
    } else if e.MainAbort? {
      OwnAbortIsAccounted(s, id, early);
    } else if e.MainComplete? {
      OwnCompleteIsAccounted(s, id, early);
    } else {
      FileOperationIsAccounted(s, id, early, e);
    }
  }

  lemma FileOperationIsAccounted(s: System, id: string, early: bool, e: Event)
    requires Accounted(s, id, early) && Enabled(s, e) && (e.MainRenamed? || e.MainUnlinked?)
    ensures Accounted(ApplyMain(s, e), id, early)
  {
    var z := ApplyMain(s, e);
    assert z.r == s.r && z.st.saves == s.st.saves;
  }

  lemma EventIsAccounted(files: map<string, seq<byte>>, s: System, id: string, early: bool, e: Event)
    requires ProperFiles(files) && id in files && Inv(files, s) && Bounded(s.r)
    requires Legal(files, s, e) && Accounted(s, id, early)
    ensures Accounted(Apply(s, e), id, early || AbortsEarly(s, id, e))
  {
    if e.ChannelCloses? {
      ClosingIsAccounted(s, id, early);
    } else if !Mine(s, id, e) {
      EventElsewhere(files, s, id, e);
      UntouchedStaysAccounted(s, Apply(s, e), id, early);
    } else if AtMain(e) {
      OwnMainEventIsAccounted(s, id, early, e);
    } else {
      OwnRendererEventIsAccounted(files, s, id, early, e);
    }
  }

  lemma {:induction false} AlwaysAccounted(files: map<string, seq<byte>>, disk: Files, events: seq<Event>, id: string)
    requires ProperFiles(files) && id in files && Run(files, Initial(disk), events)
    ensures Accounted(After(Initial(disk), events), id, AbortedEarly(Initial(disk), events, id))
  {
    if events != [] {
      var front := events[..|events| - 1];
      AlwaysAccounted(files, disk, front, id);
      InvAlways(files, disk, front);
      BoundedAlways(disk, front);
      EventIsAccounted(files, After(Initial(disk), front), id, AbortedEarly(Initial(disk), front, id), events[|events| - 1]);
    }
  }

  // The same, said of a moment of the run.
  ghost predicate AbortedAt(start: System, events: seq<Event>, id: string, j: int) {
    0 <= j < |events| && AbortsEarly(After(start, events[..j]), id, events[j])
  }

  lemma EarlierMoment(start: System, events: seq<Event>, id: string, j: int)
    requires 0 <= j < |events| - 1
    ensures AbortedAt(start, events[..|events| - 1], id, j) == AbortedAt(start, events, id, j)
  {
    assert events[..|events| - 1][..j] == events[..j];
  }

  lemma {:induction false} AbortedEarlyMeans(start: System, events: seq<Event>, id: string)
    ensures AbortedEarly(start, events, id) <==> exists j :: AbortedAt(start, events, id, j)
  {
    if events != [] {
      var front, last := events[..|events| - 1], |events| - 1;
      AbortedEarlyMeans(start, front, id);
      forall j | 0 <= j < last
        ensures AbortedAt(start, front, id, j) == AbortedAt(start, events, id, j)
      {
        EarlierMoment(start, events, id, j);
      }
      assert AbortedAt(start, events, id, last) == AbortsEarly(After(start, front), id, events[last]);
    }
  }

  /** In every run a session is orphaned only if an abort of its transfer was handled while the
      transfer's start was pending. */
  lemma OrphansWereAbortedEarly(files: map<string, seq<byte>>, disk: Files, events: seq<Event>, id: string)
    requires ProperFiles(files) && id in files && Run(files, Initial(disk), events)
    requires Orphaned(After(Initial(disk), events), id)
    ensures exists j :: AbortedAt(Initial(disk), events, id, j)
  {
    AlwaysAccounted(files, disk, events, id);
    AbortedEarlyMeans(Initial(disk), events, id);
  }

  /** And at the moment a session is made, it is orphaned exactly if that has happened. */
  lemma OrphanedAtAllocation(files: map<string, seq<byte>>, disk: Files, events: seq<Event>, id: string, path: Path)
    requires ProperFiles(files) && id in files && Run(files, Initial(disk), events)
    requires events != [] && events[|events| - 1] == MainAllocated(id, Some(path))
    ensures Orphaned(After(Initial(disk), events), id) <==> exists j :: AbortedAt(Initial(disk), events, id, j)
  {
    var front := events[..|events| - 1];
    AlwaysAccounted(files, disk, front, id);
    AbortedEarlyMeans(Initial(disk), events, id);
    FileStore.SanitizeTokenId(id);
  }
}
