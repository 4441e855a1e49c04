// Rotation of the backend's log file: the log becomes `.1`, each backup moves up by one, and the
// oldest is dropped. File operations are taken to succeed.

module LogRotation {
  import opened Basics
  import opened Text

  type Path = string

  type Files = map<Path, seq<byte>>

  function Backup(log: Path, i: nat): Path { log + "." + Numeral(i) }

  function Lookup(files: Files, p: Path): Option<seq<byte>> { if p in files then Some(files[p]) else None }

  lemma BackupsDistinct(log: Path, i: nat, j: nat)
    requires Backup(log, i) == Backup(log, j)
    ensures i == j
  {
    assert Numeral(i) == Backup(log, i)[|log| + 1..];
    assert Numeral(j) == Backup(log, j)[|log| + 1..];
    NumeralInjective(i, j);
  }

  lemma BackupIsNotLog(log: Path, i: nat)
    ensures Backup(log, i) != log
  {
    assert |Backup(log, i)| > |log|;
  }

  predicate IsDue(files: Files, log: Path, maxBytes: nat) { log in files && |files[log]| >= maxBytes }

  // A path that rotation has nothing to do with.
  ghost predicate Unrelated(p: Path, log: Path, backups: nat) {
    p != log && forall i: nat :: i <= Max(backups, 1) ==> p != Backup(log, i)
  }

  /** What a rotation does to every path. */
  ghost predicate RotatedTo(before: Files, after: Files, log: Path, backups: nat) {
    Lookup(after, log) == None
    && Lookup(after, Backup(log, 1)) == Lookup(before, log)
    && (forall i: nat :: 1 <= i < backups ==> Lookup(after, Backup(log, i + 1)) == Lookup(before, Backup(log, i)))
    && Lookup(after, Backup(log, 0)) == (if backups == 0 then None else Lookup(before, Backup(log, 0)))
    && forall p :: Unrelated(p, log, backups) ==> Lookup(after, p) == Lookup(before, p)
  }

  // The loop has moved up the backups above `index` and left a gap there.
  ghost predicate MovedAbove(before: Files, files: Files, log: Path, backups: nat, index: nat) {
    Lookup(files, log) == Lookup(before, log)
    && (backups > 0 ==> Backup(log, index + 1) !in files)
    && (forall i: nat :: 1 <= i <= index ==> Lookup(files, Backup(log, i)) == Lookup(before, Backup(log, i)))
    && (forall i: nat :: index < i < backups ==> Lookup(files, Backup(log, i + 1)) == Lookup(before, Backup(log, i)))
    && Lookup(files, Backup(log, 0)) == (if backups == 0 then None else Lookup(before, Backup(log, 0)))
    && forall p :: Unrelated(p, log, backups) ==> Lookup(files, p) == Lookup(before, p)
  }

  function Renamed(files: Files, from: Path, to: Path): Files
    requires from in files
  {
    (files - {from})[to := files[from]]
  }

  lemma OldestRemoved(before: Files, log: Path, backups: nat)
    requires log in before
    ensures MovedAbove(before, before - {Backup(log, backups)}, log, backups, if backups == 0 then 0 else backups - 1)
  {
    BackupIsNotLog(log, backups);
    forall i: nat | i < backups ensures Backup(log, i) != Backup(log, backups) {
      if Backup(log, i) == Backup(log, backups) {
        BackupsDistinct(log, i, backups);
      }
    }
  }

  function MovedUp(files: Files, log: Path, index: nat): Files {
    if Backup(log, index) in files then Renamed(files, Backup(log, index), Backup(log, index + 1)) else files
  }

  lemma MovedUpBackup(files: Files, log: Path, index: nat, i: nat)
    requires Backup(log, index + 1) !in files
    ensures Lookup(MovedUp(files, log, index), Backup(log, i))
            == if i == index then None
               else if i == index + 1 then Lookup(files, Backup(log, index))
               else Lookup(files, Backup(log, i))
  {
    if Backup(log, i) == Backup(log, index) {
      BackupsDistinct(log, i, index);
    }
    if Backup(log, i) == Backup(log, index + 1) {
      BackupsDistinct(log, i, index + 1);
    }
    if Backup(log, index) == Backup(log, index + 1) {
      BackupsDistinct(log, index, index + 1);
    }
  }

  lemma MovedUpElsewhere(files: Files, log: Path, index: nat, p: Path)
    requires p != Backup(log, index) && p != Backup(log, index + 1)
    ensures Lookup(MovedUp(files, log, index), p) == Lookup(files, p)
  {
  }

  lemma OneMoved(before: Files, files: Files, log: Path, backups: nat, index: nat)
    requires 1 <= index < backups && MovedAbove(before, files, log, backups, index)
    ensures MovedAbove(before, MovedUp(files, log, index), log, backups, index - 1)
  {
    var after := MovedUp(files, log, index);
    BackupIsNotLog(log, index);
    BackupIsNotLog(log, index + 1);
    MovedUpElsewhere(files, log, index, log);
    MovedUpBackup(files, log, index, 0);
    MovedUpBackup(files, log, index, index);
    forall i: nat | 1 <= i <= index - 1 ensures Lookup(after, Backup(log, i)) == Lookup(before, Backup(log, i)) {
      MovedUpBackup(files, log, index, i);
    }
    forall i: nat | index - 1 < i < backups ensures Lookup(after, Backup(log, i + 1)) == Lookup(before, Backup(log, i)) {
      MovedUpBackup(files, log, index, i + 1);
    }
    forall p | Unrelated(p, log, backups) ensures Lookup(after, p) == Lookup(before, p) {
      MovedUpElsewhere(files, log, index, p);
    }
  }

  lemma LogMoved(before: Files, files: Files, log: Path, backups: nat)
    requires log in before && MovedAbove(before, files, log, backups, 0)
    ensures RotatedTo(before, Renamed(files, log, Backup(log, 1)), log, backups)
  {
    BackupIsNotLog(log, 0);
    BackupIsNotLog(log, 1);
    forall i: nat | i != 1 ensures Backup(log, i) != Backup(log, 1) {
      if Backup(log, i) == Backup(log, 1) {
        BackupsDistinct(log, i, 1);
      }
    }
    forall i: nat ensures Backup(log, i) != log {
      BackupIsNotLog(log, i);
    }
  }

  class LogFiles {
    var files: Files

    constructor ()
      ensures files == map[]
    {
      files := map[];
    }

    // renameSync replaces what is at the target; `replaced` says whether anything was.
    method Rename(from: Path, to: Path) returns (replaced: bool)
      requires from in files
      modifies this
      ensures files == Renamed(old(files), from, to)
      ensures replaced == (to in old(files) && to != from)
    {
      replaced := to in files && to != from;
      files := Renamed(files, from, to);
    }

    /** No rename replaces a file, unless no backups are kept at all and `.1` exists. */
    method RotateBackendLog(log: Path, maxBytes: nat, backups: nat) returns (replaced: bool)
      modifies this
      ensures if IsDue(old(files), log, maxBytes) then RotatedTo(old(files), files, log, backups) else files == old(files)
      ensures replaced <==> IsDue(old(files), log, maxBytes) && backups == 0 && Backup(log, 1) in old(files)
    {
      if log !in files || |files[log]| < maxBytes {
        return false;
      }
      replaced := false;
      var oldest := Backup(log, backups);
      OldestRemoved(files, log, backups);
      if oldest in files {
        files := files - {oldest};
      }
      assert files == old(files) - {oldest};
      var index := if backups == 0 then 0 else backups - 1;
      while index >= 1
        invariant 0 <= index && (index > 0 ==> index < backups)
        invariant MovedAbove(old(files), files, log, backups, index)
        invariant !replaced
        invariant backups == 0 ==> files == old(files) - {oldest}
      {
        OneMoved(old(files), files, log, backups, index);
        if Backup(log, index) in files {
          replaced := Rename(Backup(log, index), Backup(log, index + 1));
        }
        index := index - 1;
      }
      BackupIsNotLog(log, 1);
      if backups == 0 && Backup(log, 0) == Backup(log, 1) {
        BackupsDistinct(log, 0, 1);
      }
      LogMoved(old(files), files, log, backups);
      replaced := Rename(log, Backup(log, 1));
    }

    // Rotates if due and opens the log for appending.
    method OpenBackendLogStream(log: Path, maxBytes: nat, backups: nat)
      modifies this
      ensures Opened(old(files), files, log, maxBytes, backups)
    {
      var replaced := RotateBackendLog(log, maxBytes, backups);
      ghost var rotated := files;
      if log !in files {
        files := files[log := []];
      }
      assert AfterRotation(old(files), rotated, log, maxBytes, backups) && files == Touched(rotated, log);
    }

    method Append(log: Path, data: seq<byte>)
      modifies this
      ensures files == Appended(old(files), log, data)
    {
      files := files[log := (if log in files then files[log] else []) + data];
    }
  }

  // ----- runs

  function Appended(files: Files, log: Path, data: seq<byte>): Files {
    files[log := (if log in files then files[log] else []) + data]
  }

  function Touched(files: Files, log: Path): Files { if log in files then files else files[log := []] }

  ghost predicate AfterRotation(before: Files, rotated: Files, log: Path, maxBytes: nat, backups: nat) {
    if IsDue(before, log, maxBytes) then RotatedTo(before, rotated, log, backups) else rotated == before
  }

  ghost predicate Opened(before: Files, after: Files, log: Path, maxBytes: nat, backups: nat) {
    exists rotated :: AfterRotation(before, rotated, log, maxBytes, backups) && after == Touched(rotated, log)
  }

  datatype Op = Append(data: seq<byte>) | Open

  ghost predicate Step(before: Files, op: Op, after: Files, log: Path, maxBytes: nat, backups: nat) {
    match op
    case Append(data) => after == Appended(before, log, data)
    case Open => Opened(before, after, log, maxBytes, backups)
  }

  ghost predicate Run(ops: seq<Op>, states: seq<Files>, log: Path, maxBytes: nat, backups: nat) {
    |states| == |ops| + 1 && states[0] == map[]
    && forall i :: 0 <= i < |ops| ==> Step(states[i], ops[i], states[i + 1], log, maxBytes, backups)
  }

  // What was logged, without files: the current log, and the rotated ones from the latest on.
  datatype Journal = Journal(current: Option<seq<byte>>, rotated: seq<seq<byte>>)

  function Written(current: Option<seq<byte>>): seq<byte> { if current.Some? then current.value else [] }

  function JournalStep(j: Journal, op: Op, maxBytes: nat): Journal {
    match op
    case Append(data) => j.(current := Some(Written(j.current) + data))
    case Open =>
      if j.current.Some? && |j.current.value| >= maxBytes then Journal(Some([]), [j.current.value] + j.rotated)
      else j.(current := Some(Written(j.current)))
  }

  function JournalAfter(ops: seq<Op>, maxBytes: nat): Journal {
    if ops == [] then Journal(None, [])
    else JournalStep(JournalAfter(ops[..|ops| - 1], maxBytes), ops[|ops| - 1], maxBytes)
  }

  // `.i` holds the i-th latest rotated log, for as many as are kept, and nothing else exists.
  function Kept(j: Journal, backups: nat, i: nat): Option<seq<byte>> {
    if 1 <= i <= backups && i <= |j.rotated| then Some(j.rotated[i - 1]) else None
  }

  ghost predicate Holds(files: Files, j: Journal, log: Path, backups: nat) {
    Lookup(files, log) == j.current && forall i: nat :: Lookup(files, Backup(log, i)) == Kept(j, backups, i)
  }

  lemma AppendHolds(files: Files, j: Journal, log: Path, maxBytes: nat, backups: nat, data: seq<byte>)
    requires Holds(files, j, log, backups)
    ensures Holds(Appended(files, log, data), JournalStep(j, Append(data), maxBytes), log, backups)
  {
    var after, k := Appended(files, log, data), JournalStep(j, Append(data), maxBytes);
    forall i: nat ensures Lookup(after, Backup(log, i)) == Kept(k, backups, i) {
      BackupIsNotLog(log, i);
      assert Lookup(files, Backup(log, i)) == Kept(j, backups, i);
    }
  }

  lemma RotationHolds(before: Files, rotated: Files, j: Journal, log: Path, backups: nat)
    requires backups >= 1 && Holds(before, j, log, backups) && j.current.Some? && RotatedTo(before, rotated, log, backups)
    ensures Holds(rotated, Journal(None, [j.current.value] + j.rotated), log, backups)
  {
    var k := Journal(None, [j.current.value] + j.rotated);
    forall i: nat ensures Lookup(rotated, Backup(log, i)) == Kept(k, backups, i) {
      if i == 0 {
        assert Lookup(before, Backup(log, 0)) == Kept(j, backups, 0);
      } else if 1 < i <= backups {
        assert Lookup(before, Backup(log, i - 1)) == Kept(j, backups, i - 1);
        assert Lookup(rotated, Backup(log, i - 1 + 1)) == Lookup(before, Backup(log, i - 1));
      } else if i > backups {
        assert Lookup(before, Backup(log, i)) == Kept(j, backups, i);
        HighBackupIsUnrelated(log, backups, i);
      }
    }
  }

  lemma HighBackupIsUnrelated(log: Path, backups: nat, i: nat)
    requires i > backups >= 1
    ensures Unrelated(Backup(log, i), log, backups)
  {
    BackupIsNotLog(log, i);
    forall h: nat | h <= Max(backups, 1) ensures Backup(log, i) != Backup(log, h) {
      if Backup(log, i) == Backup(log, h) {
        BackupsDistinct(log, i, h);
      }
    }
  }

  lemma TouchHolds(files: Files, j: Journal, log: Path, backups: nat)
    requires Holds(files, j, log, backups)
    ensures Holds(Touched(files, log), j.(current := Some(Written(j.current))), log, backups)
  {
    var after, k := Touched(files, log), j.(current := Some(Written(j.current)));
    forall i: nat ensures Lookup(after, Backup(log, i)) == Kept(k, backups, i) {
      BackupIsNotLog(log, i);
      assert Lookup(files, Backup(log, i)) == Kept(j, backups, i);
    }
  }

  lemma StepHolds(before: Files, op: Op, after: Files, j: Journal, log: Path, maxBytes: nat, backups: nat)
    requires backups >= 1 && Holds(before, j, log, backups) && Step(before, op, after, log, maxBytes, backups)
    ensures Holds(after, JournalStep(j, op, maxBytes), log, backups)
  {
    if op.Append? {
      AppendHolds(before, j, log, maxBytes, backups, op.data);
    } else {
      var rotated :| AfterRotation(before, rotated, log, maxBytes, backups) && after == Touched(rotated, log);
      if IsDue(before, log, maxBytes) {
        RotationHolds(before, rotated, j, log, backups);
        TouchHolds(rotated, Journal(None, [j.current.value] + j.rotated), log, backups);
      } else {
        TouchHolds(before, j, log, backups);
      }
    }
  }

  /** After any sequence of appends and opens, starting from no files: `.i` holds the i-th most
      recently rotated log for i up to the number of backups, and older ones are gone. */
  lemma {:induction false} BackupsAreTheLatest(ops: seq<Op>, states: seq<Files>, log: Path, maxBytes: nat, backups: nat, n: nat)
    requires Run(ops, states, log, maxBytes, backups) && backups >= 1 && n < |states|
    ensures Holds(states[n], JournalAfter(ops[..n], maxBytes), log, backups)
    ensures var rotated := JournalAfter(ops[..n], maxBytes).rotated;
      forall i: nat :: Lookup(states[n], log + "." + Numeral(i))
                       == if 1 <= i <= backups && i <= |rotated| then Some(rotated[i - 1]) else None
  {
    if n > 0 {
      BackupsAreTheLatest(ops, states, log, maxBytes, backups, n - 1);
      assert Step(states[n - 1], ops[n - 1], states[n - 1 + 1], log, maxBytes, backups);
      assert ops[..n][..n - 1] == ops[..n - 1];
      StepHolds(states[n - 1], ops[n - 1], states[n], JournalAfter(ops[..n - 1], maxBytes), log, maxBytes, backups);
    }
    forall i: nat
      ensures Lookup(states[n], log + "." + Numeral(i)) == Kept(JournalAfter(ops[..n], maxBytes), backups, i)
    {
      assert Backup(log, i) == log + "." + Numeral(i);
    }
  }

  // Everything ever logged, latest part first.
  function Logged(j: Journal): seq<byte> {
    Flatten(Reversed(j.rotated)) + Written(j.current)
  }

  function Reversed(parts: seq<seq<byte>>): seq<seq<byte>> {
    if parts == [] then [] else Reversed(parts[1..]) + [parts[0]]
  }

  function AllData(ops: seq<Op>): seq<byte> {
    if ops == [] then []
    else
      var last := ops[|ops| - 1];
      AllData(ops[..|ops| - 1]) + if last.Append? then last.data else []
  }

  /** Rotation loses and reorders nothing: the rotated logs from the oldest on, followed by the
      current one, are everything that was appended. */
  lemma {:induction false} NothingIsReordered(ops: seq<Op>, maxBytes: nat)
    ensures Logged(JournalAfter(ops, maxBytes)) == AllData(ops)
  {
    if ops == [] {
      assert JournalAfter(ops, maxBytes) == Journal(None, []);
    } else {
      var j, op := JournalAfter(ops[..|ops| - 1], maxBytes), ops[|ops| - 1];
      NothingIsReordered(ops[..|ops| - 1], maxBytes);
      JournalStepLogs(j, op, maxBytes);
    }
  }

  lemma JournalStepLogs(j: Journal, op: Op, maxBytes: nat)
    ensures Logged(JournalStep(j, op, maxBytes)) == Logged(j) + if op.Append? then op.data else []
  {
    if op.Open? && j.current.Some? && |j.current.value| >= maxBytes {
      var parts := [j.current.value] + j.rotated;
      assert parts[1..] == j.rotated;
      FlattenAppend(Reversed(j.rotated), j.current.value);
    }
  }
}
