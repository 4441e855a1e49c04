// The main process's side of an incoming transfer: the table of save sessions and the files
// they write. A handler is cut at its awaits: the part up to an await decides and updates the
// table at once; what it awaits (allocate, append, rename, unlink) takes effect later.

module FileStore {
  import opened Basics

  type Path = string

  type Files = map<Path, seq<byte>>

  const MAX_INCOMING_FILE_TRANSFER_BYTES: nat := 256 * 1024 * 1024
  const MAX_INCOMING_CHUNK_BYTES: nat := 64 * 1024
  const MAX_FILE_NAME_LENGTH: nat := 260
  const MAX_TRANSFER_ID_LENGTH: nat := 80

  // The file a session appends to until it is renamed to its final path.
  function TempOf(path: Path): Path { path + ".part" }

  // One save session; its final path identifies it.
  datatype Session = Session(expectedChunkIndex: nat, expectedSize: nat, receivedBytes: nat)

  // `saves` maps the id of a transfer to its session; `sessions` also keeps the sessions that
  // were taken out of `saves` while a handler may still hold them.
  datatype Store = Store(saves: map<string, Path>, sessions: map<Path, Session>, files: Files)

  function Content(files: Files, path: Path): seq<byte> {
    if path in files then files[path] else []
  }

  // ----- validators

  function SanitizeTransferId(value: string): Option<string> {
    if |value| > MAX_TRANSFER_ID_LENGTH || !IsToken(Trim(value), MAX_TRANSFER_ID_LENGTH) then None
    else Some(Trim(value))
  }

  lemma SanitizeTokenId(id: string)
    requires IsToken(id, MAX_TRANSFER_ID_LENGTH)
    ensures SanitizeTransferId(id) == Some(id)
  {
    TrimToken(id, MAX_TRANSFER_ID_LENGTH);
  }

  predicate ValidStart(id: string, name: string, size: int) {
    SanitizeTransferId(id).Some? && |name| <= MAX_FILE_NAME_LENGTH && 0 <= size <= MAX_INCOMING_FILE_TRANSFER_BYTES
  }

  predicate ValidAppend(id: string, index: int, bytes: seq<byte>) {
    SanitizeTransferId(id).Some? && |bytes| <= MAX_INCOMING_CHUNK_BYTES && 0 <= index
  }

  // ----- files:start-incoming-transfer

  predicate StartAccepted(st: Store, id: string, name: string, size: int) {
    ValidStart(id, name, size) && SanitizeTransferId(id).value !in st.saves
  }

  /** Which start and append calls are accepted, in numbers. */
  lemma AcceptedInNumbers(st: Store, raw: string, name: string, size: int, index: int, bytes: seq<byte>)
    ensures var id := Trim(raw);
      (StartAccepted(st, raw, name, size)
       <==> |raw| <= 80 && IsToken(id, 80) && |name| <= 260 && 0 <= size <= 268435456 && id !in st.saves)
      && (AppendCheck(st, raw, index, bytes) != Refused
          <==> |raw| <= 80 && IsToken(id, 80) && |bytes| <= 65536 && index >= 0 && id in st.saves
               && st.saves[id] in st.sessions && index == st.sessions[st.saves[id]].expectedChunkIndex)
      && (AppendCheck(st, raw, index, bytes) != Refused ==>
            var session := st.sessions[st.saves[id]];
            AppendCheck(st, raw, index, bytes)
            == if session.receivedBytes + |bytes| <= session.expectedSize then Write(st.saves[id]) else Overflow(st.saves[id]))
  {
  }

  // After exclusive creation of an empty file at `path`.
  function StartFinish(st: Store, id: string, size: nat, path: Path): Store {
    Store(st.saves[id := path], st.sessions[path := Session(0, size, 0)], st.files[path := []])
  }

  // ----- files:append-incoming-transfer

  datatype AppendVerdict = Refused | Overflow(path: Path) | Write(path: Path)

  function AppendCheck(st: Store, id: string, index: int, bytes: seq<byte>): AppendVerdict {
    if !ValidAppend(id, index, bytes) then Refused
    else
      var key := SanitizeTransferId(id).value;
      if key !in st.saves || st.saves[key] !in st.sessions then Refused
      else
        var session := st.sessions[st.saves[key]];
        if index != session.expectedChunkIndex then Refused
        else if session.receivedBytes + |bytes| > session.expectedSize then Overflow(st.saves[key])
        else Write(st.saves[key])
  }

  function Forget(st: Store, id: string): Store { st.(saves := st.saves - {id}) }

  function AppendFinish(st: Store, path: Path, bytes: seq<byte>): Store
    requires path in st.sessions
  {
    var session := st.sessions[path];
    st.(files := st.files[TempOf(path) := Content(st.files, TempOf(path)) + bytes],
        sessions := st.sessions[path := session.(receivedBytes := session.receivedBytes + |bytes|,
                                                 expectedChunkIndex := session.expectedChunkIndex + 1)])
  }

  // ----- files:complete-incoming-transfer and files:abort-incoming-transfer

  datatype CompleteVerdict = Unknown | Incomplete(path: Path) | Rename(path: Path)

  function CompleteCheck(st: Store, id: string): CompleteVerdict {
    var key := SanitizeTransferId(id);
    if key.None? || key.value !in st.saves || st.saves[key.value] !in st.sessions then Unknown
    else
      var path := st.saves[key.value];
      if st.sessions[path].receivedBytes != st.sessions[path].expectedSize then Incomplete(path) else Rename(path)
  }

  // `rename` fails when the source does not exist.
  function RenameFinish(st: Store, path: Path): Store
    requires TempOf(path) in st.files
  {
    st.(files := (st.files - {TempOf(path)})[path := st.files[TempOf(path)]])
  }

  function UnlinkFinish(st: Store, path: Path): Store { st.(files := st.files - {TempOf(path)}) }

  lemma TempOfInjective(p: Path, q: Path)
    requires TempOf(p) == TempOf(q)
    ensures p == q
  {
    assert |p| + 5 == |TempOf(p)| && |q| + 5 == |TempOf(q)|;
    assert p == TempOf(p)[..|p|] && q == TempOf(q)[..|q|];
  }
}
