// What the main process leaves on disk: the file it creates at a final path is never removed
// again, and the temporary file stays whenever an append to it is the last thing that happened.

module LeftOnDisk {
  import opened Basics
  import DataChannel
  import opened FileStore
  import opened FileTransfer
  import opened FileTermination
  import opened SavedChecksums

  // The final paths created so far.
  function Created(events: seq<Event>): set<Path> {
    if events == [] then {} else Created(events[..|events| - 1]) + CreatedBy(events[|events| - 1])
  }

  function CreatedBy(e: Event): set<Path> {
    if e.MainAllocated? && e.place.Some? then {e.place.value} else {}
  }

  // The sessions whose temporary file an append made last, after any unlink or rename.
  ghost function PartsAfter(parts: set<Path>, s: System, e: Event): set<Path>
    requires Enabled(s, e)
  {
    if e.MainWritten? && e.ok then parts + {s.r.transfers[e.id].call.target}
    else if (e.MainUnlinked? || e.MainRenamed?) && e.ok then parts - {e.path}
    else parts
  }

  ghost function Parts(start: System, events: seq<Event>): set<Path>
    requires Possible(start, events)
  {
    if events == [] then {}
    else PartsAfter(Parts(start, events[..|events| - 1]), After(start, events[..|events| - 1]), events[|events| - 1])
  }

  // ----- the same, said of moments of the run

  ghost predicate AppendsAt(start: System, events: seq<Event>, p: Path, j: int) {
    0 <= j < |events| && events[j].MainWritten? && events[j].ok
    && Enabled(After(start, events[..j]), events[j])
    && After(start, events[..j]).r.transfers[events[j].id].call.target == p
  }

  predicate ClearsAt(events: seq<Event>, p: Path, j: int) {
    0 <= j < |events| && (events[j] == MainUnlinked(p, true) || events[j] == MainRenamed(p, true))
  }

  ghost predicate Uncleared(events: seq<Event>, p: Path, j: int) { forall k :: j < k ==> !ClearsAt(events, p, k) }

  ghost predicate AppendsLastAt(start: System, events: seq<Event>, p: Path, j: int) {
    AppendsAt(start, events, p, j) && Uncleared(events, p, j)
  }

  // An append to the temporary file of p took effect, and no unlink or rename of it after that.
  ghost predicate AppendedLast(start: System, events: seq<Event>, p: Path) {
    exists j :: AppendsLastAt(start, events, p, j)
  }

  lemma EarlierAppend(start: System, events: seq<Event>, p: Path, j: int)
    requires events != []
    ensures AppendsAt(start, events[..|events| - 1], p, j) <==> AppendsAt(start, events, p, j) && j != |events| - 1
  {
    if 0 <= j < |events| - 1 {
      assert events[..|events| - 1][..j] == events[..j];
    }
  }

  lemma UnclearedBefore(events: seq<Event>, p: Path, j: int)
    requires events != [] && j < |events| - 1
    ensures Uncleared(events, p, j) <==> Uncleared(events[..|events| - 1], p, j) && !ClearsAt(events, p, |events| - 1)
  {
    var last := |events| - 1;
    assert forall k :: k != last ==> ClearsAt(events[..last], p, k) == ClearsAt(events, p, k);
  }

  lemma {:induction false} PartsMean(start: System, events: seq<Event>, p: Path)
    requires Possible(start, events)
    ensures p in Parts(start, events) <==> AppendedLast(start, events, p)
  {
    if events != [] {
      PartsMean(start, events[..|events| - 1], p);
      LastMoment(start, events, p);
    }
  }

  lemma LastMoment(start: System, events: seq<Event>, p: Path)
    requires events != []
    ensures var last := |events| - 1;
      AppendedLast(start, events, p)
      <==> AppendsAt(start, events, p, last) || (AppendedLast(start, events[..last], p) && !ClearsAt(events, p, last))
  {
    var last := |events| - 1;
    forall j
      ensures AppendsLastAt(start, events, p, j)
              <==> if j == last then AppendsAt(start, events, p, last)
                   else AppendsLastAt(start, events[..last], p, j) && !ClearsAt(events, p, last)
    {
      MomentIs(start, events, p, j);
    }
    assert !AppendsLastAt(start, events[..last], p, last);
  }

  lemma MomentIs(start: System, events: seq<Event>, p: Path, j: int)
    requires events != []
    ensures var last := |events| - 1;
      AppendsLastAt(start, events, p, j)
      <==> if j == last then AppendsAt(start, events, p, last)
           else AppendsLastAt(start, events[..last], p, j) && !ClearsAt(events, p, last)
  {
    EarlierAppend(start, events, p, j);
    if j < |events| - 1 {
      UnclearedBefore(events, p, j);
    }
  }

  // ----- the invariant

  function Temps(parts: set<Path>): set<Path> { set p | p in parts :: TempOf(p) }

  ghost predicate OnDisk(disk: Files, s: System, created: set<Path>, parts: set<Path>) {
    && s.st.sessions.Keys == created && parts <= created
    && s.st.files.Keys == disk.Keys + created + Temps(parts)
    && (forall p :: p in created ==> p !in disk && TempOf(p) !in disk)
    && (forall p :: p in created && p !in s.saved ==> Content(s.st.files, p) == [])
    && parts !! s.saved
  }

  lemma OtherEventLeaves(disk: Files, s: System, created: set<Path>, parts: set<Path>, e: Event)
    requires OnDisk(disk, s, created, parts) && Enabled(s, e)
    requires !e.MainAllocated? && !e.MainWritten? && !e.MainRenamed? && !e.MainUnlinked?
    ensures OnDisk(disk, Apply(s, e), created, parts)
  {
    SameStore(s, e);
  }

  lemma SameStore(s: System, e: Event)
    requires Enabled(s, e) && !e.MainAllocated? && !e.MainWritten? && !e.MainRenamed? && !e.MainUnlinked?
    ensures var z := Apply(s, e); z.st.files == s.st.files && z.st.sessions == s.st.sessions && z.saved == s.saved
  {
    if e.MainAppend? {
    } else if e.MainComplete? {
    } else if e.MainAbort? {
    } else {
    }
  }

  lemma AllocationLeaves(disk: Files, s: System, created: set<Path>, parts: set<Path>, id: string, path: Path)
    requires PathsOk(s) && OnDisk(disk, s, created, parts) && Enabled(s, MainAllocated(id, Some(path)))
    ensures OnDisk(disk, EndAllocate(s, id, Some(path)), created + {path}, parts)
  {
    var z := EndAllocate(s, id, Some(path));
    assert z.st.files == s.st.files[path := []] && z.st.sessions.Keys == created + {path} && z.saved == s.saved;
  }

  lemma AppendLeaves(disk: Files, s: System, created: set<Path>, parts: set<Path>, id: string)
    requires PathsOk(s) && OnDisk(disk, s, created, parts) && Enabled(s, MainWritten(id, true))
    requires s.r.transfers[id].call.target !in s.saved
    ensures OnDisk(disk, EndWrite(s, id, true), created, parts + {s.r.transfers[id].call.target})
  {
    var path := s.r.transfers[id].call.target;
    TempPathsDiffer(s, path);
    assert Temps(parts + {path}) == Temps(parts) + {TempOf(path)};
  }

  lemma TempsWithout(parts: set<Path>, path: Path)
    ensures Temps(parts - {path}) == Temps(parts) - {TempOf(path)}
  {
    forall p | p in parts && TempOf(p) == TempOf(path)
      ensures p == path
    {
      TempOfInjective(p, path);
    }
  }

  lemma UnlinkLeaves(disk: Files, s: System, created: set<Path>, parts: set<Path>, path: Path)
    requires PathsOk(s) && OnDisk(disk, s, created, parts) && path in s.unlinks
    ensures OnDisk(disk, EndUnlink(s, path, true), created, parts - {path})
  {
    TempPathsDiffer(s, path);
    TempsWithout(parts, path);
  }

  lemma RenameLeaves(disk: Files, s: System, created: set<Path>, parts: set<Path>, path: Path)
    requires PathsOk(s) && OnDisk(disk, s, created, parts) && path in s.renames
    ensures OnDisk(disk, EndRename(s, path, true), created, parts - {path})
  {
    TempPathsDiffer(s, path);
    TempsWithout(parts, path);
    if TempOf(path) !in s.st.files {
      assert path !in parts;
      assert parts - {path} == parts;
    }
  }

  // Nothing is appended any more to a file that has been saved.
  lemma SavedIsClosed(log: set<DataChannel.Message>, s: System, id: string)
    requires Sound(log, s) && Bounded(s.r) && id in s.r.transfers && s.r.transfers[id].call.AppendWriting?
    ensures s.r.transfers[id].call.target !in s.saved
  {
    var p, t := s.r.transfers[id].call.target, s.r.transfers[id];
    assert OwnsTarget(s, id, t) && TransferBounded(s.r, id);
    assert p in s.st.sessions && SessionSound(log, s, p, id, t);
  }

  lemma AllocatedLeaves(disk: Files, s: System, created: set<Path>, parts: set<Path>, id: string, place: Option<Path>,
                        next: set<Path>)
    requires PathsOk(s) && OnDisk(disk, s, created, parts) && Enabled(s, MainAllocated(id, place))
    requires next == created + CreatedBy(MainAllocated(id, place))
    ensures OnDisk(disk, Apply(s, MainAllocated(id, place)), next, parts)
  {
    if place.Some? {
      AllocationLeaves(disk, s, created, parts, id, place.value);
    } else {
      assert next == created;
    }
  }

  lemma WrittenLeaves(disk: Files, log: set<DataChannel.Message>, s: System, created: set<Path>, parts: set<Path>,
                      id: string, ok: bool)
    requires Sound(log, s) && Bounded(s.r) && OnDisk(disk, s, created, parts) && Enabled(s, MainWritten(id, ok))
    ensures OnDisk(disk, EndWrite(s, id, ok), created, PartsAfter(parts, s, MainWritten(id, ok)))
  {
    if ok {
      SavedIsClosed(log, s, id);
      AppendLeaves(disk, s, created, parts, id);
    }
  }

  lemma RenamedLeaves(disk: Files, s: System, created: set<Path>, parts: set<Path>, path: Path, ok: bool)
    requires PathsOk(s) && OnDisk(disk, s, created, parts) && Enabled(s, MainRenamed(path, ok))
    ensures OnDisk(disk, EndRename(s, path, ok), created, PartsAfter(parts, s, MainRenamed(path, ok)))
  {
    if ok {
      RenameLeaves(disk, s, created, parts, path);
    }
  }

  lemma UnlinkedLeaves(disk: Files, s: System, created: set<Path>, parts: set<Path>, path: Path, ok: bool)
    requires PathsOk(s) && OnDisk(disk, s, created, parts) && Enabled(s, MainUnlinked(path, ok))
    ensures OnDisk(disk, EndUnlink(s, path, ok), created, PartsAfter(parts, s, MainUnlinked(path, ok)))
  {
    if ok {
      UnlinkLeaves(disk, s, created, parts, path);
    }
  }

  lemma FileEventLeaves(disk: Files, log: set<DataChannel.Message>, s: System, created: set<Path>, parts: set<Path>, e: Event)
    requires Sound(log, s) && Bounded(s.r) && OnDisk(disk, s, created, parts) && Enabled(s, e)
    requires e.MainWritten? || e.MainRenamed? || e.MainUnlinked?
    ensures OnDisk(disk, ApplyMain(s, e), created, PartsAfter(parts, s, e))
  {
    match e
    case MainWritten(id, ok) => WrittenLeaves(disk, log, s, created, parts, id, ok);
    case MainRenamed(path, ok) => RenamedLeaves(disk, s, created, parts, path, ok);
    case MainUnlinked(path, ok) => UnlinkedLeaves(disk, s, created, parts, path, ok);
  }

  lemma EventLeaves(disk: Files, log: set<DataChannel.Message>, s: System, created: set<Path>, parts: set<Path>, e: Event,
                    next: set<Path>)
    requires Sound(log, s) && Bounded(s.r) && OnDisk(disk, s, created, parts) && Enabled(s, e)
    requires next == created + CreatedBy(e)
    ensures OnDisk(disk, Apply(s, e), next, PartsAfter(parts, s, e))
  {
    if e.MainAllocated? {
      AllocationEventLeaves(disk, log, s, created, parts, e, next);
    } else {
      LaterEventLeaves(disk, log, s, created, parts, e, next);
    }
  }

  lemma AllocationEventLeaves(disk: Files, log: set<DataChannel.Message>, s: System, created: set<Path>, parts: set<Path>,
                              e: Event, next: set<Path>)
    requires Sound(log, s) && OnDisk(disk, s, created, parts) && Enabled(s, e) && e.MainAllocated?
    requires next == created + CreatedBy(e)
    ensures OnDisk(disk, Apply(s, e), next, PartsAfter(parts, s, e))
  {
    AllocatedLeaves(disk, s, created, parts, e.id, e.place, next);
  }

  lemma LaterEventLeaves(disk: Files, log: set<DataChannel.Message>, s: System, created: set<Path>, parts: set<Path>, e: Event,
                         next: set<Path>)
    requires Sound(log, s) && Bounded(s.r) && OnDisk(disk, s, created, parts) && Enabled(s, e)
    requires !e.MainAllocated? && next == created + CreatedBy(e)
    ensures OnDisk(disk, Apply(s, e), next, PartsAfter(parts, s, e))
  {
    assert next == created;
    if e.MainWritten? || e.MainRenamed? || e.MainUnlinked? {
      FileEventLeaves(disk, log, s, created, parts, e);
    } else {
      OtherEventLeaves(disk, s, created, parts, e);
    }
  }

  lemma {:induction false} OnDiskAlways(disk: Files, events: seq<Event>)
    requires Possible(Initial(disk), events)
    ensures OnDisk(disk, After(Initial(disk), events), Created(events), Parts(Initial(disk), events))
  {
    if events == [] {
      assert Temps({}) == {};
    } else {
      var front := events[..|events| - 1];
      OnDiskAlways(disk, front);
      SoundAlways(disk, front);
      BoundedAlways(disk, front);
      EventLeaves(disk, Deliveries(front), After(Initial(disk), front), Created(front), Parts(Initial(disk), front),
                  events[|events| - 1], Created(events));
    }
  }

  /** In every run, whatever messages arrive, the paths on disk are exactly those of the start, every
      final path ever created, and the temporary path of each of these to which an append took
      effect after the last unlink or rename of it. What stays at a final path that was not saved
      is an empty file; and a saved file leaves no temporary file. */
  lemma WhatIsLeft(disk: Files, events: seq<Event>, path: Path)
    requires Possible(Initial(disk), events)
    ensures var s := After(Initial(disk), events);
      && (path in s.st.files <==>
            path in disk || path in Created(events)
            || exists p :: p in Created(events) && path == p + ".part" && AppendedLast(Initial(disk), events, p))
      && (path in Created(events) && path !in s.saved ==> path in s.st.files && s.st.files[path] == [])
      && (path in s.saved ==> TempOf(path) !in s.st.files)
  {
    OnDiskAlways(disk, events);
    forall p
      ensures p in Parts(Initial(disk), events) <==> AppendedLast(Initial(disk), events, p)
    {
      PartsMean(Initial(disk), events, p);
    }
    if path in After(Initial(disk), events).saved {
      SoundAlways(disk, events);
      SavedLeavesNoPart(disk, After(Initial(disk), events), Created(events), Parts(Initial(disk), events), path);
    }
  }

  lemma SavedLeavesNoPart(disk: Files, s: System, created: set<Path>, parts: set<Path>, path: Path)
    requires PathsOk(s) && OnDisk(disk, s, created, parts) && path in s.saved
    ensures TempOf(path) !in s.st.files
  {
    TempPathsDiffer(s, path);
    TempsWithout(parts, path);
  }
}
