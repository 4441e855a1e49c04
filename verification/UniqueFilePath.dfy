// Exclusive creation of the final file of an incoming transfer: the first of a thousand candidate
// names that is still free.

module UniqueFilePath {
  import opened Basics
  import opened FileStore
  import opened Text

  const ATTEMPTS: nat := 1000

  // The directory ends in a separator. The name is cut into base and extension by the platform.
  datatype Request = Request(directory: string, base: string, extension: string)

  function Candidate(r: Request, index: nat): Path {
    r.directory + (if index == 0 then r.base + r.extension else r.base + " (" + Numeral(index) + ")" + r.extension)
  }

  lemma CandidatesDistinct(r: Request, i: nat, j: nat)
    requires Candidate(r, i) == Candidate(r, j)
    ensures i == j
  {
    if i > 0 && j > 0 {
      MiddleIsUnique(r.directory + (r.base + " ("), Numeral(i), Numeral(j), ")" + r.extension);
      assert Candidate(r, i) == r.directory + (r.base + " (") + Numeral(i) + (")" + r.extension);
      assert Candidate(r, j) == r.directory + (r.base + " (") + Numeral(j) + (")" + r.extension);
      NumeralInjective(i, j);
    }
  }

  /** The first candidate is the requested name. Every other one has its number, in parentheses and after a
      space, between base and extension: in the same directory, with the same extension, and the number
      can be read back. */
  lemma NumberIsBetween(r: Request, index: nat)
    ensures Candidate(r, 0) == r.directory + r.base + r.extension
    ensures var path, from := Candidate(r, index), |r.directory| + |r.base|;
      var to := |path| - |r.extension|;
      index > 0 ==>
        from + 3 < to && path[..from] == r.directory + r.base && path[to..] == r.extension
        && path[from] == ' ' && path[from + 1] == '(' && path[to - 1] == ')'
        && IsNumeral(path[from + 2..to - 1]) && NumeralValue(path[from + 2..to - 1]) == index
  {
    NumeralRoundTrip(index);
    if index > 0 {
      var path, from := Candidate(r, index), |r.directory| + |r.base|;
      assert path == (r.directory + r.base) + " (" + Numeral(index) + ")" + r.extension;
      assert path[from + 2..|path| - |r.extension| - 1] == Numeral(index);
    } else {
      assert Candidate(r, 0) == r.directory + r.base + r.extension;
    }
  }

  lemma MiddleIsUnique(before: string, a: string, b: string, after: string)
    ensures before + a + after == before + b + after ==> a == b
  {
    if before + a + after == before + b + after {
      assert a == (before + a + after)[|before|..|before| + |a|];
      assert b == (before + b + after)[|before|..|before| + |b|];
    }
  }

  // Creation fails on an existing file, and where the platform refuses the path for reasons of its own.
  predicate Free(files: Files, refused: set<Path>, path: Path) { path !in files && path !in refused }

  function FirstFree(files: Files, refused: set<Path>, r: Request, from: nat): Option<nat>
    decreases ATTEMPTS - from
  {
    if from >= ATTEMPTS then None
    else if Free(files, refused, Candidate(r, from)) then Some(from)
    else FirstFree(files, refused, r, from + 1)
  }

  /** The index found is the least free one, and none is found exactly when all are taken. */
  lemma {:induction false} FirstFreeIsLeast(files: Files, refused: set<Path>, r: Request, from: nat)
    ensures match FirstFree(files, refused, r, from)
      case Some(k) =>
        from <= k < 1000 && Free(files, refused, Candidate(r, k))
        && forall i :: from <= i < k ==> !Free(files, refused, Candidate(r, i))
      case None => forall i :: from <= i < 1000 ==> !Free(files, refused, Candidate(r, i))
    decreases ATTEMPTS - from
  {
    if from < ATTEMPTS && !Free(files, refused, Candidate(r, from)) {
      FirstFreeIsLeast(files, refused, r, from + 1);
    }
  }

  function Created(files: Files, refused: set<Path>, r: Request): (Files, Option<Path>) {
    match FirstFree(files, refused, r, 0)
    case None => (files, None)
    case Some(k) => (files[Candidate(r, k) := []], Some(Candidate(r, k)))
  }

  class Disk {
    var files: Files
    const refused: set<Path>

    constructor (refused: set<Path>)
      ensures files == map[] && this.refused == refused
    {
      this.files := map[];
      this.refused := refused;
    }

    // writeFile with the flag "wx".
    method WriteExclusive(path: Path, content: seq<byte>) returns (ok: bool)
      modifies this
      ensures ok == Free(old(files), refused, path)
      ensures files == if ok then old(files)[path := content] else old(files)
    {
      ok := path !in files && path !in refused;
      if ok {
        files := files[path := content];
      }
    }

    method CreateUniqueFilePath(r: Request) returns (path: Option<Path>)
      modifies this
      ensures (files, path) == Created(old(files), refused, r)
    {
      for index := 0 to ATTEMPTS
        invariant files == old(files)
        invariant FirstFree(files, refused, r, 0) == FirstFree(files, refused, r, index)
      {
        var ok := WriteExclusive(Candidate(r, index), []);
        if ok {
          return Some(Candidate(r, index));
        }
      }
      return None;
    }
  }

  // ----- several transfers

  // The paths handed out to a list of requests, one after the other.
  function Handed(files: Files, refused: set<Path>, requests: seq<Request>): seq<Option<Path>>
    decreases requests
  {
    if requests == [] then []
    else
      var (after, path) := Created(files, refused, requests[0]);
      [path] + Handed(after, refused, requests[1..])
  }

  lemma {:induction false} HandedIsNew(files: Files, refused: set<Path>, requests: seq<Request>, k: nat)
    requires k < |requests|
    ensures |Handed(files, refused, requests)| == |requests|
    ensures Handed(files, refused, requests)[k].Some? ==> Handed(files, refused, requests)[k].value !in files
    decreases requests
  {
    FirstFreeIsLeast(files, refused, requests[0], 0);
    var after := Created(files, refused, requests[0]).0;
    if k > 0 {
      HandedIsNew(after, refused, requests[1..], k - 1);
    } else if |requests| > 1 {
      HandedIsNew(after, refused, requests[1..], 0);
    }
  }

  /** No two transfers are given the same path, whatever names they ask for. */
  lemma {:induction false} PathsAreDistinct(files: Files, refused: set<Path>, requests: seq<Request>, j: nat, k: nat)
    requires j < k < |requests|
    ensures |Handed(files, refused, requests)| == |requests|
    ensures Handed(files, refused, requests)[j].Some? ==>
      Handed(files, refused, requests)[j] != Handed(files, refused, requests)[k]
    decreases requests
  {
    HandedIsNew(files, refused, requests, k);
    var (after, path) := Created(files, refused, requests[0]);
    if j > 0 {
      PathsAreDistinct(after, refused, requests[1..], j - 1, k - 1);
    } else {
      HandedIsNew(after, refused, requests[1..], k - 1);
    }
  }

  // Candidates before `n` are taken and the others are free.
  predicate TakenUpTo(files: Files, refused: set<Path>, r: Request, n: nat) {
    forall i: nat :: i < 1000 ==> (Free(files, refused, Candidate(r, i)) <==> i >= n)
  }

  /** Repeating a request hands out the candidates in order, a thousand of them, and then fails. */
  lemma {:induction false} RepeatedRequest(files: Files, refused: set<Path>, r: Request, n: nat, requests: seq<Request>, k: nat)
    requires TakenUpTo(files, refused, r, n) && n <= 1000
    requires k < |requests| && forall i :: 0 <= i < |requests| ==> requests[i] == r
    ensures |Handed(files, refused, requests)| == |requests|
    ensures Handed(files, refused, requests)[k] == if n + k < 1000 then Some(Candidate(r, n + k)) else None
    decreases requests
  {
    HandedIsNew(files, refused, requests, k);
    FirstFreeIsLeast(files, refused, r, 0);
    if n < ATTEMPTS {
      assert Free(files, refused, Candidate(r, n));
      NextTaken(files, refused, r, n);
      if k > 0 {
        RepeatedRequest(files[Candidate(r, n) := []], refused, r, n + 1, requests[1..], k - 1);
      }
    } else if k > 0 {
      RepeatedRequest(files, refused, r, n, requests[1..], k - 1);
    }
  }

  lemma NextTaken(files: Files, refused: set<Path>, r: Request, n: nat)
    requires TakenUpTo(files, refused, r, n) && n < ATTEMPTS
    ensures TakenUpTo(files[Candidate(r, n) := []], refused, r, n + 1)
  {
    forall i: nat | i < ATTEMPTS
      ensures Free(files[Candidate(r, n) := []], refused, Candidate(r, i)) <==> i >= n + 1
    {
      if Candidate(r, i) == Candidate(r, n) {
        CandidatesDistinct(r, i, n);
      }
    }
  }
}
