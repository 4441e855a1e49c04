// A file of no bytes: nothing is ever appended for it, so its temporary file never exists and the
// final rename has nothing to rename. Delivery therefore needs a file of at least one byte.

module EmptyFiles {
  import opened Basics
  import opened FileStore
  import opened FileTransfer

  ghost predicate OwnsEmpty(files: map<string, seq<byte>>, s: System, p: Path) {
    p in s.owner && s.owner[p] in files && files[s.owner[p]] == []
  }

  ghost predicate NothingWritten(files: map<string, seq<byte>>, s: System) {
    forall p :: OwnsEmpty(files, s, p) ==> TempOf(p) !in s.st.files && p !in s.saved
  }

  predicate ChangesFiles(e: Event) {
    e.MainAllocated? || (e.MainWritten? && e.ok) || (e.MainRenamed? && e.ok) || (e.MainUnlinked? && e.ok)
  }

  lemma OtherEventsKeepFiles(s: System, e: Event)
    requires Enabled(s, e) && !ChangesFiles(e)
    ensures var z := Apply(s, e); z.st.files == s.st.files && z.owner == s.owner && z.saved == s.saved
  {
  }

  lemma AllocationWritesNothing(files: map<string, seq<byte>>, s: System, id: string, place: Option<Path>)
    requires PathsOk(s) && NothingWritten(files, s) && Enabled(s, MainAllocated(id, place))
    ensures NothingWritten(files, EndAllocate(s, id, place))
  {
    var z := EndAllocate(s, id, place);
    forall p | OwnsEmpty(files, z, p)
      ensures TempOf(p) !in z.st.files && p !in z.saved
    {
      assert |TempOf(p)| == |p| + 5;
      if !(place.Some? && p == place.value) {
        assert OwnsEmpty(files, s, p);
      }
    }
  }

  // Whoever appends has a chunk, and so has bytes.
  lemma WriterHasBytes(files: map<string, seq<byte>>, s: System, id: string)
    requires TransfersOk(files, s.r.transfers) && Coupled(s) && Enabled(s, MainWritten(id, true))
    ensures files[id] != []
    ensures var target := s.r.transfers[id].call.target; target in s.owner && s.owner[target] == id
  {
    assert CallOk(files[id], s.r.transfers[id]);
    assert OwnsTarget(s, id, s.r.transfers[id]);
  }

  lemma WriteTouchesOneTemp(s: System, id: string, p: Path)
    requires Enabled(s, MainWritten(id, true)) && p != s.r.transfers[id].call.target
    ensures TempOf(p) in EndWrite(s, id, true).st.files <==> TempOf(p) in s.st.files
  {
    var target := s.r.transfers[id].call.target;
    if TempOf(p) == TempOf(target) {
      TempOfInjective(p, target);
    }
  }

  lemma AppendIsForAnother(files: map<string, seq<byte>>, s: System, id: string)
    requires TransfersOk(files, s.r.transfers) && Coupled(s) && NothingWritten(files, s)
    requires Enabled(s, MainWritten(id, true))
    ensures NothingWritten(files, EndWrite(s, id, true))
  {
    var z := EndWrite(s, id, true);
    WriterHasBytes(files, s, id);
    forall p | OwnsEmpty(files, z, p)
      ensures TempOf(p) !in z.st.files && p !in z.saved
    {
      assert OwnsEmpty(files, s, p);
      WriteTouchesOneTemp(s, id, p);
    }
  }

  lemma RenameIsOfAnother(files: map<string, seq<byte>>, s: System, path: Path)
    requires PathsOk(s) && NothingWritten(files, s) && path in s.renames
    ensures NothingWritten(files, EndRename(s, path, true))
  {
    var z := EndRename(s, path, true);
    forall p | OwnsEmpty(files, z, p)
      ensures TempOf(p) !in z.st.files && p !in z.saved
    {
      assert OwnsEmpty(files, s, p);
    }
  }

  lemma UnlinkWritesNothing(files: map<string, seq<byte>>, s: System, path: Path)
    requires NothingWritten(files, s)
    ensures NothingWritten(files, EndUnlink(s, path, true))
  {
    forall p | OwnsEmpty(files, EndUnlink(s, path, true), p)
      ensures TempOf(p) !in EndUnlink(s, path, true).st.files && p !in s.saved
    {
      assert OwnsEmpty(files, s, p);
    }
  }

  lemma EventWritesNothing(files: map<string, seq<byte>>, s: System, e: Event)
    requires Inv(files, s) && NothingWritten(files, s) && Enabled(s, e)
    ensures NothingWritten(files, Apply(s, e))
  {
    if !ChangesFiles(e) {
      OtherEventsKeepFiles(s, e);
      forall p | OwnsEmpty(files, Apply(s, e), p)
        ensures TempOf(p) !in s.st.files && p !in s.saved
      {
        assert OwnsEmpty(files, s, p);
      }
    } else if e.MainAllocated? {
      AllocationWritesNothing(files, s, e.id, e.place);
    } else if e.MainWritten? {
      AppendIsForAnother(files, s, e.id);
    } else if e.MainRenamed? {
      RenameIsOfAnother(files, s, e.path);
    } else {
      UnlinkWritesNothing(files, s, e.path);
    }
  }

  lemma {:induction false} NothingWrittenAlways(files: map<string, seq<byte>>, disk: Files, events: seq<Event>)
    requires ProperFiles(files) && Run(files, Initial(disk), events)
    ensures NothingWritten(files, After(Initial(disk), events))
  {
    if events != [] {
      var front := events[..|events| - 1];
      NothingWrittenAlways(files, disk, front);
      InvAlways(files, disk, front);
      EventWritesNothing(files, After(Initial(disk), front), events[|events| - 1]);
    }
  }

  /** In no run is an empty file ever saved. */
  lemma SavedFilesAreNotEmpty(files: map<string, seq<byte>>, disk: Files, events: seq<Event>)
    requires ProperFiles(files) && Run(files, Initial(disk), events)
    ensures var s := After(Initial(disk), events);
      forall p :: p in s.saved ==> p in s.owner && s.owner[p] in files && files[s.owner[p]] != []
  {
    NothingWrittenAlways(files, disk, events);
    InvAlways(files, disk, events);
    var s := After(Initial(disk), events);
    forall p | p in s.saved
      ensures p in s.owner && s.owner[p] in files && files[s.owner[p]] != []
    {
      assert p in s.st.sessions;
      assert !OwnsEmpty(files, s, p);
    }
  }
}
