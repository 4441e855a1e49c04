// Whole runs of the session registry, and the flat map from clients to sessions that it stands
// for when a join removes and adds in one step.

module SessionRuns {
  import opened Sessions

  datatype Op =
    | Join(sessionId: string, peer: Peer, now: int)
    | Add(sessionId: string, peer: Peer, now: int)
    | Remove(clientId: string)
    | Touch(sessionId: string, clientId: string, now: int)
    | Sweep(now: int)

  // removePeer takes the client out of one of the sessions it is in.
  ghost predicate RemoveStep(r: Registry, c: string, z: Registry) {
    if exists s :: Has(r, s, c) then exists s :: Has(r, s, c) && z == Removed(r, s, c) else z == r
  }

  ghost function AddStep(limits: Limits, r: Registry, s: string, p: Peer, now: int): Registry {
    if Verdict(limits, r, s, p).None? then Added(r, s, p, now) else r
  }

  ghost predicate Step(limits: Limits, r: Registry, op: Op, z: Registry) {
    match op
    case Join(s, p, now) => exists m :: RemoveStep(r, p.clientId, m) && z == AddStep(limits, m, s, p, now)
    case Add(s, p, now) => z == AddStep(limits, r, s, p, now)
    case Remove(c) => RemoveStep(r, c, z)
    case Touch(s, c, now) => z == Touched(r, s, c, now)
    case Sweep(now) => z == Swept(limits, r, now)
  }

  // The registry goes from `r` through these states.
  ghost predicate Leads(limits: Limits, r: Registry, ops: seq<Op>, states: seq<Registry>) {
    |states| == |ops| + 1 && states[0] == r
    && forall i :: 0 <= i < |ops| ==> Step(limits, states[i], ops[i], states[i + 1])
  }

  ghost predicate IsRun(limits: Limits, ops: seq<Op>, states: seq<Registry>) { Leads(limits, map[], ops, states) }

  // ----- every step keeps the registry sound

  lemma {:induction false} SubsetIsSmaller<T>(a: set<T>, b: set<T>)
    requires a <= b
    ensures |a| <= |b|
  {
    if a != {} {
      var x :| x in a;
      SubsetIsSmaller(a - {x}, b - {x});
    }
  }

  // Some peers may be gone and some seen later; the others are who they were.
  ghost predicate Below(z: Registry, r: Registry) {
    NoEmptySession(z) && forall s, c :: Has(z, s, c) ==> Has(r, s, c) && z[s][c].peer == r[s][c].peer
  }

  lemma BelowIsSound(limits: Limits, z: Registry, r: Registry)
    requires Sound(limits, r) && Below(z, r)
    ensures Sound(limits, z)
  {
    BelowIsSmaller(limits, z, r);
    forall s, c | Has(z, s, c) ensures z[s][c].peer.clientId == c {
      assert Has(r, s, c);
    }
    forall s, c, d | Has(z, s, c) && Has(z, s, d) && z[s][c].peer.role == z[s][d].peer.role ensures c == d {
      assert Has(r, s, c) && Has(r, s, d);
    }
  }

  lemma BelowIsSmaller(limits: Limits, z: Registry, r: Registry)
    requires WithinLimits(limits, r) && Below(z, r)
    ensures WithinLimits(limits, z)
  {
    forall s | s in z ensures s in r && z[s].Keys <= r[s].Keys {
      var c :| c in z[s];
      assert Has(z, s, c);
      assert forall d :: d in z[s] ==> Has(z, s, d);
    }
    SubsetIsSmaller(z.Keys, r.Keys);
    forall m | m in Memberships(z) ensures m in Memberships(r) {
      assert Has(z, m.0, m.1);
    }
    SubsetIsSmaller(Memberships(z), Memberships(r));
    forall s | s in z ensures |z[s]| <= limits.maxPeersPerSession {
      SubsetIsSmaller(z[s].Keys, r[s].Keys);
    }
  }

  lemma SweptIsBelow(limits: Limits, r: Registry, now: int)
    ensures Below(Swept(limits, r, now), r)
  {
  }

  lemma RemovedIsBelow(r: Registry, s: string, c: string)
    requires NoEmptySession(r) && Has(r, s, c)
    ensures Below(Removed(r, s, c), r)
  {
  }

  lemma TouchedIsBelow(r: Registry, s: string, c: string, now: int)
    requires NoEmptySession(r)
    ensures Below(Touched(r, s, c, now), r)
  {
  }

  lemma RemoveStepIsBelow(r: Registry, c: string, z: Registry)
    requires NoEmptySession(r) && RemoveStep(r, c, z)
    ensures Below(z, r)
  {
    if exists s :: Has(r, s, c) {
      var s :| Has(r, s, c) && z == Removed(r, s, c);
      RemovedIsBelow(r, s, c);
    }
  }

  lemma AddedMembers(r: Registry, s: string, p: Peer, now: int)
    ensures Memberships(Added(r, s, p, now)) == Memberships(r) + {(s, p.clientId)}
  {
    var z := Added(r, s, p, now);
    forall m | m in Memberships(r) ensures m in Memberships(z) {
      assert Has(z, m.0, m.1);
    }
    assert Has(z, s, p.clientId);
  }

  lemma AddedTotal(limits: Limits, r: Registry, s: string, p: Peer, now: int)
    requires Total(r) <= limits.maxTotalPeers && Verdict(limits, r, s, p).None?
    ensures Total(Added(r, s, p, now)) <= limits.maxTotalPeers
  {
    AddedMembers(r, s, p, now);
    if Has(r, s, p.clientId) {
      assert (s, p.clientId) in Memberships(r);
    }
  }

  lemma AddedSessions(limits: Limits, r: Registry, s: string, p: Peer, now: int)
    requires |r| <= limits.maxSessions && Verdict(limits, r, s, p).None?
    ensures |Added(r, s, p, now)| <= limits.maxSessions
  {
    assert Added(r, s, p, now).Keys == r.Keys + {s};
  }

  lemma AddedToSession(limits: Limits, r: Registry, s: string, p: Peer, now: int)
    requires limits.maxPeersPerSession >= 1 && (s in r ==> |r[s]| <= limits.maxPeersPerSession)
    requires Verdict(limits, r, s, p).None?
    ensures |Added(r, s, p, now)[s]| <= limits.maxPeersPerSession
  {
    var peers := PeersOf(r, s);
    assert Added(r, s, p, now)[s].Keys == peers.Keys + {p.clientId};
    if p.clientId in peers {
      assert peers.Keys + {p.clientId} == peers.Keys;
    }
  }

  lemma AddedIsWithinLimits(limits: Limits, r: Registry, s: string, p: Peer, now: int)
    requires WithinLimits(limits, r) && Verdict(limits, r, s, p).None?
    requires limits.maxPeersPerSession >= 1
    ensures WithinLimits(limits, Added(r, s, p, now))
  {
    AddedTotal(limits, r, s, p, now);
    AddedSessions(limits, r, s, p, now);
    AddedToSession(limits, r, s, p, now);
  }

  lemma AddedHas(r: Registry, s: string, p: Peer, now: int, t: string, d: string)
    ensures var z := Added(r, s, p, now);
      Has(z, t, d) <==> (t == s && d == p.clientId) || Has(r, t, d)
    ensures var z := Added(r, s, p, now);
      Has(z, t, d) ==> z[t][d] == if t == s && d == p.clientId then StoredPeer(p, now) else r[t][d]
  {
  }

  lemma AddedIsOnePerRole(limits: Limits, r: Registry, s: string, p: Peer, now: int)
    requires OnePerRole(r) && Verdict(limits, r, s, p).None?
    ensures OnePerRole(Added(r, s, p, now))
  {
    var z := Added(r, s, p, now);
    forall t, c, d | Has(z, t, c) && Has(z, t, d) && z[t][c].peer.role == z[t][d].peer.role
      ensures c == d
    {
      AddedHas(r, s, p, now, t, c);
      AddedHas(r, s, p, now, t, d);
      assert !(exists e :: e != p.clientId && RoleHeld(PeersOf(r, s), p.role, e));
      if t == s && c == p.clientId && d != c {
        assert RoleHeld(PeersOf(r, s), p.role, d);
      } else if t == s && d == p.clientId && d != c {
        assert RoleHeld(PeersOf(r, s), p.role, c);
      }
    }
  }

  lemma AddIsSound(limits: Limits, r: Registry, s: string, p: Peer, now: int)
    requires Sound(limits, r) && limits.maxPeersPerSession >= 1
    ensures Sound(limits, AddStep(limits, r, s, p, now))
  {
    if Verdict(limits, r, s, p).None? {
      var z := Added(r, s, p, now);
      AddedIsWithinLimits(limits, r, s, p, now);
      AddedIsOnePerRole(limits, r, s, p, now);
      forall t, d | Has(z, t, d) ensures z[t][d].peer.clientId == d {
        AddedHas(r, s, p, now, t, d);
      }
    }
  }

  lemma StepIsSound(limits: Limits, r: Registry, op: Op, z: Registry)
    requires Sound(limits, r) && Step(limits, r, op, z) && limits.maxPeersPerSession >= 1
    ensures Sound(limits, z)
  {
    match op
    case Join(s, p, now) =>
      var m :| RemoveStep(r, p.clientId, m) && z == AddStep(limits, m, s, p, now);
      RemoveStepIsBelow(r, p.clientId, m);
      BelowIsSound(limits, m, r);
      AddIsSound(limits, m, s, p, now);
    case Add(s, p, now) =>
      AddIsSound(limits, r, s, p, now);
    case Remove(c) =>
      RemoveStepIsBelow(r, c, z);
      BelowIsSound(limits, z, r);
    case Touch(s, c, now) =>
      TouchedIsBelow(r, s, c, now);
      BelowIsSound(limits, z, r);
    case Sweep(now) =>
      SweptIsBelow(limits, r, now);
      BelowIsSound(limits, z, r);
  }

  lemma EmptyIsSound(limits: Limits, r: Registry)
    requires r == map[]
    ensures Sound(limits, r)
  {
    assert Memberships(r) == {};
  }

  lemma {:induction false} SoundFrom(limits: Limits, r: Registry, ops: seq<Op>, states: seq<Registry>, i: nat)
    requires Leads(limits, r, ops, states) && i < |states| && limits.maxPeersPerSession >= 1
    requires Sound(limits, r)
    ensures Sound(limits, states[i])
    decreases |ops|
  {
    if i > 0 {
      var next := states[1];
      assert Step(limits, states[0], ops[0], states[0 + 1]);
      StepIsSound(limits, r, ops[0], next);
      TailLeads(limits, r, ops, states);
      SoundFrom(limits, next, ops[1..], states[1..], i - 1);
    }
  }

  lemma TailLeads(limits: Limits, r: Registry, ops: seq<Op>, states: seq<Registry>)
    requires Leads(limits, r, ops, states) && ops != []
    ensures Leads(limits, states[1], ops[1..], states[1..])
  {
    forall i | 0 <= i < |ops| - 1
      ensures Step(limits, states[1..][i], ops[1..][i], states[1..][i + 1])
    {
      assert Step(limits, states[i + 1], ops[i + 1], states[i + 1 + 1]);
    }
  }

  /** In every run, however joins are interleaved, no session is empty, no role is held twice in a
      session, and all three capacity limits are respected. */
  lemma SoundAlways(limits: Limits, ops: seq<Op>, states: seq<Registry>, i: nat)
    requires IsRun(limits, ops, states) && i < |states| && limits.maxPeersPerSession >= 1
    ensures Sound(limits, states[i])
  {
    EmptyIsSound(limits, states[0]);
    SoundFrom(limits, states[0], ops, states, i);
  }

  // ----- one session per client

  /** Adding a client keeps it in one session exactly when it is in no other session before. */
  lemma AddKeepsOneSession(limits: Limits, r: Registry, s: string, p: Peer, now: int)
    requires OneSessionPerClient(r) && Verdict(limits, r, s, p).None?
    ensures OneSessionPerClient(Added(r, s, p, now)) <==> forall t :: Has(r, t, p.clientId) ==> t == s
  {
    var z, c := Added(r, s, p, now), p.clientId;
    AddedHas(r, s, p, now, s, c);
    if t :| Has(r, t, c) && t != s {
      AddedHas(r, s, p, now, t, c);
      assert Has(z, t, c) && Has(z, s, c);
    } else {
      forall t, u, d | Has(z, t, d) && Has(z, u, d) ensures t == u {
        AddedHas(r, s, p, now, t, d);
        AddedHas(r, s, p, now, u, d);
      }
    }
  }

  // Under one session per client, a removal leaves nothing of the client.
  lemma RemoveStepRemoves(r: Registry, c: string, z: Registry)
    requires OneSessionPerClient(r) && RemoveStep(r, c, z)
    ensures forall s :: !Has(z, s, c)
    ensures forall s, d :: d != c ==> (Has(z, s, d) <==> Has(r, s, d))
    ensures forall s, d :: Has(z, s, d) ==> Has(r, s, d) && z[s][d] == r[s][d]
  {
    if exists s :: Has(r, s, c) {
      var s :| Has(r, s, c) && z == Removed(r, s, c);
      forall t, d
        ensures Has(z, t, d) <==> Has(r, t, d) && !(t == s && d == c)
        ensures Has(z, t, d) ==> z[t][d] == r[t][d]
      {
        RemovedHas(r, s, c, t, d);
      }
    }
  }

  lemma RemovedHas(r: Registry, s: string, c: string, t: string, d: string)
    requires Has(r, s, c)
    ensures var z := Removed(r, s, c);
      (Has(z, t, d) <==> Has(r, t, d) && !(t == s && d == c)) && (Has(z, t, d) ==> z[t][d] == r[t][d])
  {
    var peers := r[s] - {c};
    if t == s && Has(r, t, d) && d != c {
      assert d in peers;
    }
  }

  // ----- the flat map

  datatype FlatPeer = FlatPeer(session: string, stored: StoredPeer)

  type Flat = map<string, FlatPeer>

  function SessionsIn(f: Flat): set<string> { set c | c in f :: f[c].session }

  function ClientsIn(f: Flat, s: string): set<string> { set c | c in f && f[c].session == s }

  // Whether a client that is in no session may join one.
  ghost predicate FlatRefuses(limits: Limits, f: Flat, s: string, p: Peer) {
    (s !in SessionsIn(f) && |SessionsIn(f)| >= limits.maxSessions)
    || (exists c :: c in ClientsIn(f, s) && f[c].stored.peer.role == p.role)
    || (s in SessionsIn(f) && |ClientsIn(f, s)| >= limits.maxPeersPerSession)
    || |f| >= limits.maxTotalPeers
  }

  ghost function FlatJoin(limits: Limits, f: Flat, s: string, p: Peer, now: int): Flat
    requires p.clientId !in f
  {
    if FlatRefuses(limits, f, s, p) then f else f[p.clientId := FlatPeer(s, StoredPeer(p, now))]
  }

  ghost function FlatStep(limits: Limits, f: Flat, op: Op): Flat
    requires !op.Add?
  {
    match op
    case Join(s, p, now) => FlatJoin(limits, f - {p.clientId}, s, p, now)
    case Remove(c) => f - {c}
    case Touch(s, c, now) =>
      if c in f && f[c].session == s then f[c := FlatPeer(s, f[c].stored.(lastSeenAt := now))] else f
    case Sweep(now) => map c | c in f && now - f[c].stored.lastSeenAt <= limits.peerTtlMs :: f[c]
  }

  ghost predicate JoinsAreAtomic(ops: seq<Op>) { forall i :: 0 <= i < |ops| ==> !ops[i].Add? }

  ghost function FlatAfter(limits: Limits, ops: seq<Op>): Flat
    requires JoinsAreAtomic(ops)
  {
    if ops == [] then map[] else FlatStep(limits, FlatAfter(limits, ops[..|ops| - 1]), ops[|ops| - 1])
  }

  ghost predicate Member(f: Flat, s: string, c: string) { c in f && f[c].session == s }

  ghost predicate Refines(r: Registry, f: Flat) {
    NoEmptySession(r) && forall s, c :: (Has(r, s, c) <==> Member(f, s, c)) && (Has(r, s, c) ==> r[s][c] == f[c].stored)
  }

  lemma RefinedIsOneSession(r: Registry, f: Flat)
    requires Refines(r, f)
    ensures OneSessionPerClient(r)
  {
    forall s, t, c | Has(r, s, c) && Has(r, t, c) ensures s == t {
      assert Member(f, s, c) && Member(f, t, c);
    }
  }

  // The counts that the limits are compared with are counts of the flat map.
  lemma RefinedCounts(r: Registry, f: Flat)
    requires Refines(r, f)
    ensures r.Keys == SessionsIn(f) && Total(r) == |f|
    ensures forall s :: s in r ==> r[s].Keys == ClientsIn(f, s)
  {
    forall s ensures s in r <==> s in SessionsIn(f) {
      if s in r {
        var c :| c in r[s];
        assert Has(r, s, c) && Member(f, s, c);
      }
      if s in SessionsIn(f) {
        var c :| c in f && f[c].session == s;
        assert Member(f, s, c);
      }
    }
    forall s | s in r ensures r[s].Keys == ClientsIn(f, s) {
      forall c ensures c in r[s] <==> c in ClientsIn(f, s) {
        assert Has(r, s, c) <==> Member(f, s, c);
      }
    }
    var pairs := set c | c in f.Keys :: (f[c].session, c);
    forall m: (string, string) ensures m in Memberships(r) <==> m in pairs {
      assert Has(r, m.0, m.1) <==> Member(f, m.0, m.1);
    }
    assert Memberships(r) == pairs;
    PairsWith(f, f.Keys);
  }

  lemma {:induction false} PairsWith(f: Flat, clients: set<string>)
    requires clients <= f.Keys
    ensures |set c | c in clients :: (f[c].session, c)| == |clients|
  {
    if clients != {} {
      var c :| c in clients;
      PairsWith(f, clients - {c});
      assert (set d | d in clients :: (f[d].session, d))
          == (set d | d in clients - {c} :: (f[d].session, d)) + {(f[c].session, c)};
    }
  }

  lemma RefinedVerdict(limits: Limits, r: Registry, f: Flat, s: string, p: Peer)
    requires Refines(r, f) && p.clientId !in f
    ensures Verdict(limits, r, s, p).Some? <==> FlatRefuses(limits, f, s, p)
  {
    RefinedCounts(r, f);
    assert !Has(r, s, p.clientId) by {
      assert !Member(f, s, p.clientId);
    }
    if s in r {
      assert |r[s]| == |r[s].Keys|;
    }
    forall c ensures RoleHeld(PeersOf(r, s), p.role, c) <==> c in ClientsIn(f, s) && f[c].stored.peer.role == p.role {
      assert Has(r, s, c) <==> Member(f, s, c);
    }
    SameRoleIsOther(r, f, s, p);
  }

  lemma SameRoleIsOther(r: Registry, f: Flat, s: string, p: Peer)
    requires p.clientId !in f
    requires forall c :: RoleHeld(PeersOf(r, s), p.role, c) <==> c in ClientsIn(f, s) && f[c].stored.peer.role == p.role
    ensures (exists c :: c != p.clientId && RoleHeld(PeersOf(r, s), p.role, c))
        <==> (exists c :: c in ClientsIn(f, s) && f[c].stored.peer.role == p.role)
  {
    if c :| c in ClientsIn(f, s) && f[c].stored.peer.role == p.role {
      assert RoleHeld(PeersOf(r, s), p.role, c);
    }
    if c :| c != p.clientId && RoleHeld(PeersOf(r, s), p.role, c) {
      assert c in ClientsIn(f, s) && f[c].stored.peer.role == p.role;
    }
  }

  lemma RemoveRefines(r: Registry, f: Flat, c: string, z: Registry)
    requires Refines(r, f) && RemoveStep(r, c, z)
    ensures Refines(z, f - {c})
  {
    RefinedIsOneSession(r, f);
    RemoveStepRemoves(r, c, z);
    RemoveStepIsBelow(r, c, z);
    forall s, d
      ensures Has(z, s, d) <==> Member(f - {c}, s, d)
      ensures Has(z, s, d) ==> z[s][d] == (f - {c})[d].stored
    {
      assert Has(r, s, d) <==> Member(f, s, d);
    }
  }

  lemma AddRefines(limits: Limits, r: Registry, f: Flat, s: string, p: Peer, now: int)
    requires Refines(r, f) && p.clientId !in f
    ensures Refines(AddStep(limits, r, s, p, now), FlatJoin(limits, f, s, p, now))
  {
    RefinedVerdict(limits, r, f, s, p);
    if Verdict(limits, r, s, p).None? {
      var z, g := Added(r, s, p, now), FlatJoin(limits, f, s, p, now);
      forall t, d
        ensures Has(z, t, d) <==> Member(g, t, d)
        ensures Has(z, t, d) ==> z[t][d] == g[d].stored
      {
        AddedHas(r, s, p, now, t, d);
        assert Has(r, t, d) <==> Member(f, t, d);
      }
    }
  }

  lemma TouchRefines(limits: Limits, r: Registry, f: Flat, s: string, c: string, now: int)
    requires Refines(r, f)
    ensures Refines(Touched(r, s, c, now), FlatStep(limits, f, Touch(s, c, now)))
  {
    var z, g := Touched(r, s, c, now), FlatStep(limits, f, Touch(s, c, now));
    TouchedIsBelow(r, s, c, now);
    assert Has(r, s, c) <==> Member(f, s, c);
    forall t, d
      ensures Has(z, t, d) <==> Member(g, t, d)
      ensures Has(z, t, d) ==> z[t][d] == g[d].stored
    {
      assert Has(r, t, d) <==> Member(f, t, d);
    }
  }

  lemma SweepRefines(limits: Limits, r: Registry, f: Flat, now: int)
    requires Refines(r, f)
    ensures Refines(Swept(limits, r, now), FlatStep(limits, f, Sweep(now)))
  {
    var z, g := Swept(limits, r, now), FlatStep(limits, f, Sweep(now));
    forall s, c
      ensures Has(z, s, c) <==> Member(g, s, c)
      ensures Has(z, s, c) ==> z[s][c] == g[c].stored
    {
      assert Has(r, s, c) <==> Member(f, s, c);
      SweptHas(limits, r, now, s, c);
    }
  }

  lemma StepRefines(limits: Limits, r: Registry, f: Flat, op: Op, z: Registry)
    requires Refines(r, f) && Step(limits, r, op, z) && !op.Add?
    ensures Refines(z, FlatStep(limits, f, op))
  {
    match op
    case Join(s, p, now) =>
      var m :| RemoveStep(r, p.clientId, m) && z == AddStep(limits, m, s, p, now);
      RemoveRefines(r, f, p.clientId, m);
      AddRefines(limits, m, f - {p.clientId}, s, p, now);
    case Remove(c) => RemoveRefines(r, f, c, z);
    case Touch(s, c, now) => TouchRefines(limits, r, f, s, c, now);
    case Sweep(now) => SweepRefines(limits, r, f, now);
  }

  /** When a join removes and adds in one step, the nested map stands for a flat map from each
      client to its one session, in every run: every client is in at most one session, and every
      join is accepted or refused by what the flat map says. */
  lemma {:induction false} RefinesAlways(limits: Limits, ops: seq<Op>, states: seq<Registry>, i: nat)
    requires IsRun(limits, ops, states) && JoinsAreAtomic(ops) && i < |states|
    ensures Refines(states[i], FlatAfter(limits, ops[..i])) && OneSessionPerClient(states[i])
  {
    if i == 0 {
      assert ops[..0] == [];
    } else {
      RefinesAlways(limits, ops, states, i - 1);
      assert Step(limits, states[i - 1], ops[i - 1], states[i]);
      assert ops[..i][..i - 1] == ops[..i - 1];
      StepRefines(limits, states[i - 1], FlatAfter(limits, ops[..i - 1]), ops[i - 1], states[i]);
    }
    RefinedIsOneSession(states[i], FlatAfter(limits, ops[..i]));
  }

  lemma RemovedAgain(s: string, p: Peer, now: int)
    ensures Removed(Added(map[], s, p, now), s, p.clientId) == map[]
  {
    var none: Peers := map[];
    assert none[p.clientId := StoredPeer(p, now)] - {p.clientId} == map[];
  }

  lemma FirstJoin(limits: Limits, s: string, p: Peer, now: int)
    requires limits.maxSessions >= 1 && limits.maxPeersPerSession >= 1 && limits.maxTotalPeers >= 1
    ensures Step(limits, map[], Join(s, p, now), Added(map[], s, p, now))
  {
    var none: Registry := map[];
    assert Memberships(none) == {};
    assert RemoveStep(none, p.clientId, none);
    assert Verdict(limits, none, s, p).None?;
  }

  /** A client that is in a session and joins twice: the first join has removed it and awaits its
      leaving when the second one runs to its end; the first then adds it to another session. */
  lemma InterleavedJoins(limits: Limits, p: Peer, u: string, s: string, t: string, now: int)
    requires limits.maxSessions >= 2 && limits.maxPeersPerSession >= 1 && limits.maxTotalPeers >= 2 && s != t
    ensures var second := Added(map[], t, p, now);
      var both := Added(second, s, p, now);
      IsRun(limits, [Join(u, p, now), Remove(p.clientId), Join(t, p, now), Add(s, p, now)],
            [map[], Added(map[], u, p, now), map[], second, both])
      && !OneSessionPerClient(both)
  {
    var none: Registry := map[];
    var first, second := Added(none, u, p, now), Added(none, t, p, now);
    var both := Added(second, s, p, now);
    FirstJoin(limits, u, p, now);
    FirstJoin(limits, t, p, now);
    RemovedAgain(u, p, now);
    assert Has(first, u, p.clientId) && RemoveStep(first, p.clientId, none);
    LateAdd(limits, p, s, t, now);
  }

  lemma LateAdd(limits: Limits, p: Peer, s: string, t: string, now: int)
    requires limits.maxSessions >= 2 && limits.maxTotalPeers >= 2 && s != t
    ensures var second := Added(map[], t, p, now);
      AddStep(limits, second, s, p, now) == Added(second, s, p, now) && !OneSessionPerClient(Added(second, s, p, now))
  {
    var none: Registry := map[];
    var second := Added(none, t, p, now);
    assert Memberships(none) == {};
    AddedMembers(none, t, p, now);
    assert Total(second) == 1;
    assert second.Keys == {t};
    assert Verdict(limits, second, s, p).None?;
    var both := Added(second, s, p, now);
    assert Has(both, s, p.clientId) && Has(both, t, p.clientId);
  }

  // ----- where members come from

  lemma StepMembers(limits: Limits, r: Registry, op: Op, z: Registry, s: string, c: string)
    requires Step(limits, r, op, z) && NoEmptySession(r) && Has(z, s, c)
    ensures (Has(r, s, c) && r[s][c].peer == z[s][c].peer)
         || ((op.Join? || op.Add?) && op.sessionId == s && op.peer == z[s][c].peer)
  {
    match op
    case Join(t, p, now) =>
      var m :| RemoveStep(r, p.clientId, m) && z == AddStep(limits, m, t, p, now);
      RemoveStepIsBelow(r, p.clientId, m);
      AddedHas(m, t, p, now, s, c);
    case Add(t, p, now) => AddedHas(r, t, p, now, s, c);
    case Remove(d) => RemoveStepIsBelow(r, d, z);
    case Touch(t, d, now) => TouchedIsBelow(r, t, d, now);
    case Sweep(now) => SweptIsBelow(limits, r, now);
  }

  ghost predicate Admitted(ops: seq<Op>, s: string, p: Peer) {
    exists op :: op in ops && (op.Join? || op.Add?) && op.sessionId == s && op.peer == p
  }

  lemma {:induction false} MemberFrom(limits: Limits, r: Registry, ops: seq<Op>, states: seq<Registry>, s: string, c: string)
    requires Leads(limits, r, ops, states) && Sound(limits, r) && limits.maxPeersPerSession >= 1
    requires Has(states[|ops|], s, c)
    ensures (Has(r, s, c) && r[s][c].peer == states[|ops|][s][c].peer) || Admitted(ops, s, states[|ops|][s][c].peer)
    decreases |ops|
  {
    if ops != [] {
      var next, p := states[1], states[|ops|][s][c].peer;
      assert Step(limits, states[0], ops[0], states[0 + 1]);
      StepIsSound(limits, r, ops[0], next);
      TailLeads(limits, r, ops, states);
      MemberFrom(limits, next, ops[1..], states[1..], s, c);
      if Admitted(ops[1..], s, p) {
        var op :| op in ops[1..] && (op.Join? || op.Add?) && op.sessionId == s && op.peer == p;
        assert op in ops;
      } else {
        StepMembers(limits, r, ops[0], next, s, c);
        assert ops[0] in ops;
      }
    }
  }

  /** A member of a session was put there by a join of exactly this peer to this session. */
  lemma MemberWasJoined(limits: Limits, ops: seq<Op>, states: seq<Registry>, s: string, c: string)
    requires IsRun(limits, ops, states) && limits.maxPeersPerSession >= 1 && Has(states[|ops|], s, c)
    ensures Admitted(ops, s, states[|ops|][s][c].peer)
  {
    EmptyIsSound(limits, states[0]);
    MemberFrom(limits, states[0], ops, states, s, c);
  }

  // The gateway's last step of a join, as the two calls it makes.
  method JoinSession(service: SessionsService, sessionId: string, peer: Peer, now: int) returns (r: Result)
    requires Sound(service.limits, service.sessions)
    modifies service
    ensures Step(service.limits, old(service.sessions), Join(sessionId, peer, now), service.sessions)
    ensures r.Joined? ==> Has(service.sessions, sessionId, peer.clientId)
  {
    var previous := service.RemovePeer(peer.clientId);
    ghost var between := service.sessions;
    assert RemoveStep(old(service.sessions), peer.clientId, between);
    RemoveStepIsBelow(old(service.sessions), peer.clientId, between);
    BelowIsSound(service.limits, between, old(service.sessions));
    r := service.AddPeer(sessionId, peer, now);
    assert service.sessions == AddStep(service.limits, between, sessionId, peer, now);
  }
}
