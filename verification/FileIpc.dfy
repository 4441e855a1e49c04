// The handlers of the main process over their mutable state: the table of save sessions, the
// session objects, and the files. Each method is one part of a handler, up to or after an await,
// and is proved to be the step of FileStore with the same name.

module FileIpc {
  import opened Basics
  import opened FileStore

  class IncomingFileSaveSession {
    var expectedChunkIndex: nat
    var receivedBytes: nat
    const expectedSize: nat
    const filePath: Path
    const tempFilePath: Path

    constructor (size: nat, path: Path)
      ensures expectedChunkIndex == 0 && receivedBytes == 0
      ensures expectedSize == size && filePath == path && tempFilePath == TempOf(path)
    {
      expectedChunkIndex, receivedBytes := 0, 0;
      expectedSize, filePath, tempFilePath := size, path, TempOf(path);
    }

    ghost function View(): Session
      reads this
    {
      Session(expectedChunkIndex, expectedSize, receivedBytes)
    }
  }

  class FileIpcHandlers {
    var incomingFileSaves: map<string, IncomingFileSaveSession>
    var files: Files
    // Every session made so far, also those no longer in the table.
    ghost var sessions: map<Path, IncomingFileSaveSession>

    ghost predicate Valid()
      reads this, sessions.Values
    {
      && (forall p :: p in sessions ==> sessions[p].filePath == p && sessions[p].tempFilePath == TempOf(p))
      && (forall id :: id in incomingFileSaves ==>
            incomingFileSaves[id].filePath in sessions
            && sessions[incomingFileSaves[id].filePath] == incomingFileSaves[id])
    }

    // The path of the session each transfer is saved by.
    ghost function Saves(): map<string, Path>
      reads this`incomingFileSaves
    {
      map id | id in incomingFileSaves :: incomingFileSaves[id].filePath
    }

    ghost function Views(): map<Path, Session>
      reads this`sessions, sessions.Values
    {
      map p | p in sessions :: sessions[p].View()
    }

    ghost function State(): Store
      reads this, sessions.Values
    {
      Store(Saves(), Views(), files)
    }

    constructor (disk: Files)
      ensures Valid() && State() == Store(map[], map[], disk)
    {
      incomingFileSaves, files, sessions := map[], disk, map[];
    }

    method StartCheck(id: string, name: string, size: int) returns (accepted: bool)
      requires Valid()
      ensures accepted == StartAccepted(State(), id, name, size)
    {
      var key := SanitizeTransferId(id);
      accepted := key.Some? && |name| <= MAX_FILE_NAME_LENGTH && 0 <= size <= MAX_INCOMING_FILE_TRANSFER_BYTES
                  && key.value !in incomingFileSaves;
    }

    // The awaits are over: an empty file has been created at a path that was free.
    method StartFinish(id: string, size: nat, path: Path)
      requires Valid() && path !in sessions
      modifies this
      ensures Valid() && State() == FileStore.StartFinish(old(State()), id, size, path)
      ensures fresh(sessions.Values - old(sessions.Values))
    {
      var session := new IncomingFileSaveSession(size, path);
      files := files[path := []];
      Register(id, session);
    }

    method Register(id: string, session: IncomingFileSaveSession)
      requires Valid() && session.filePath !in sessions && session.tempFilePath == TempOf(session.filePath)
      modifies this`incomingFileSaves, this`sessions
      ensures Valid() && sessions == old(sessions)[session.filePath := session]
      ensures Saves() == old(Saves())[id := session.filePath]
      ensures Views() == old(Views())[session.filePath := session.View()]
    {
      Remember(session);
      Enter(id, session);
    }

    method Enter(id: string, session: IncomingFileSaveSession)
      requires Valid() && session.filePath in sessions && sessions[session.filePath] == session
      modifies this`incomingFileSaves
      ensures Valid() && Saves() == old(Saves())[id := session.filePath]
    {
      incomingFileSaves := incomingFileSaves[id := session];
    }

    ghost method Remember(session: IncomingFileSaveSession)
      requires Valid() && session.filePath !in sessions && session.tempFilePath == TempOf(session.filePath)
      modifies this`sessions
      ensures Valid() && sessions == old(sessions)[session.filePath := session]
      ensures Views() == old(Views())[session.filePath := session.View()]
    {
      sessions := sessions[session.filePath := session];
    }

    method AppendCheck(id: string, index: int, bytes: seq<byte>)
      returns (verdict: AppendVerdict, session: IncomingFileSaveSession?)
      requires Valid()
      modifies this`incomingFileSaves
      ensures Valid() && verdict == FileStore.AppendCheck(old(State()), id, index, bytes)
      ensures State() == if verdict.Overflow? then Forget(old(State()), SanitizeTransferId(id).value) else old(State())
      ensures !verdict.Refused? ==> verdict.path in sessions && session == sessions[verdict.path]
    {
      verdict, session := Refused, null;
      var key := SanitizeTransferId(id);
      if key.None? || |bytes| > MAX_INCOMING_CHUNK_BYTES || index < 0 || key.value !in incomingFileSaves {
        return;
      }
      var found := incomingFileSaves[key.value];
      if index != found.expectedChunkIndex {
        return;
      }
      session := found;
      if found.receivedBytes + |bytes| > found.expectedSize {
        incomingFileSaves := incomingFileSaves - {key.value};
        verdict := Overflow(found.filePath);
        assert Saves() == old(Saves()) - {key.value};
      } else {
        verdict := Write(found.filePath);
      }
    }

    // `appendFile` has succeeded.
    method AppendFinish(session: IncomingFileSaveSession, bytes: seq<byte>)
      requires Valid() && session.filePath in sessions && sessions[session.filePath] == session
      modifies this`files, session
      ensures Valid() && State() == FileStore.AppendFinish(old(State()), session.filePath, bytes)
    {
      files := files[session.tempFilePath := Content(files, session.tempFilePath) + bytes];
      session.receivedBytes := session.receivedBytes + |bytes|;
      session.expectedChunkIndex := session.expectedChunkIndex + 1;
      assert State().sessions == FileStore.AppendFinish(old(State()), session.filePath, bytes).sessions;
    }

    method CompleteCheck(id: string) returns (verdict: CompleteVerdict, session: IncomingFileSaveSession?)
      requires Valid()
      modifies this`incomingFileSaves
      ensures Valid() && verdict == FileStore.CompleteCheck(old(State()), id)
      ensures State() == if verdict.Unknown? then old(State()) else Forget(old(State()), SanitizeTransferId(id).value)
      ensures !verdict.Unknown? ==> verdict.path in sessions && session == sessions[verdict.path]
    {
      verdict, session := Unknown, null;
      var key := SanitizeTransferId(id);
      if key.None? || key.value !in incomingFileSaves {
        return;
      }
      session := incomingFileSaves[key.value];
      incomingFileSaves := incomingFileSaves - {key.value};
      verdict := if session.receivedBytes != session.expectedSize
                 then Incomplete(session.filePath) else Rename(session.filePath);
      assert Saves() == old(Saves()) - {key.value};
    }

    // `rename` takes effect, or fails because there is nothing to rename.
    method RenameFinish(session: IncomingFileSaveSession) returns (ok: bool)
      requires Valid() && session.filePath in sessions && sessions[session.filePath] == session
      modifies this`files
      ensures Valid() && ok == (TempOf(session.filePath) in old(files))
      ensures State() == if ok then FileStore.RenameFinish(old(State()), session.filePath) else old(State())
    {
      ok := session.tempFilePath in files;
      if ok {
        files := (files - {session.tempFilePath})[session.filePath := files[session.tempFilePath]];
      }
    }

    method AbortCheck(id: string) returns (session: IncomingFileSaveSession?)
      requires Valid()
      modifies this`incomingFileSaves
      ensures Valid()
      ensures var key := SanitizeTransferId(id);
        if key.Some? && key.value in old(incomingFileSaves)
        then session == old(incomingFileSaves)[key.value] && State() == Forget(old(State()), key.value)
        else session == null && State() == old(State())
    {
      session := null;
      var key := SanitizeTransferId(id);
      if key.Some? && key.value in incomingFileSaves {
        session := incomingFileSaves[key.value];
        incomingFileSaves := incomingFileSaves - {key.value};
        assert Saves() == old(Saves()) - {key.value};
      }
    }

    method UnlinkFinish(session: IncomingFileSaveSession)
      requires Valid() && session.filePath in sessions && sessions[session.filePath] == session
      modifies this`files
      ensures Valid() && State() == FileStore.UnlinkFinish(old(State()), session.filePath)
    {
      files := files - {session.tempFilePath};
    }
  }
}
