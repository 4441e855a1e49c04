// How long a client stays in its session, told from the operations alone: from the join that let it
// in until it is removed, joins again, or is not seen for longer than the time to live at a sweep.
// And when a join is refused: exactly when it would break a limit.

module SessionLifetimes {
  import opened Sessions
  import opened SessionRuns

  // ----- the life of a membership

  // The time of the latest join or touch of client c in session s.
  function SeenAt(ops: seq<Op>, s: string, c: string): int {
    if ops == [] then 0 else SeenAfter(SeenAt(ops[..|ops| - 1], s, c), ops[|ops| - 1], s, c)
  }

  function SeenAfter(seen: int, op: Op, s: string, c: string): int {
    if (op.Join? && op.peer.clientId == c) || (op.Touch? && op.clientId == c && op.sessionId == s) then op.now else seen
  }

  // Operation i lets client c into session s.
  ghost predicate LetsIn(limits: Limits, ops: seq<Op>, s: string, c: string, i: int)
    requires JoinsAreAtomic(ops)
  {
    0 <= i < |ops| && ops[i].Join? && ops[i].sessionId == s && ops[i].peer.clientId == c
    && !FlatRefuses(limits, FlatAfter(limits, ops[..i]) - {c}, s, ops[i].peer)
  }

  // The operation does not end a membership of client c, last seen at `seen`.
  predicate SparesSeen(limits: Limits, op: Op, c: string, seen: int) {
    match op
    case Join(_, p, _) => p.clientId != c
    case Add(_, _, _) => true
    case Remove(d) => d != c
    case Touch(_, _, _) => true
    case Sweep(u) => u - seen <= limits.peerTtlMs
  }

  ghost predicate Spares(limits: Limits, ops: seq<Op>, s: string, c: string, k: int)
    requires 0 <= k < |ops|
  {
    SparesSeen(limits, ops[k], c, SeenAt(ops[..k], s, c))
  }

  ghost predicate SparedSince(limits: Limits, ops: seq<Op>, s: string, c: string, i: int) {
    forall k :: 0 <= i < k < |ops| ==> Spares(limits, ops, s, c, k)
  }

  ghost predicate StaysSince(limits: Limits, ops: seq<Op>, s: string, c: string, i: int)
    requires JoinsAreAtomic(ops)
  {
    LetsIn(limits, ops, s, c, i) && SparedSince(limits, ops, s, c, i)
  }

  ghost predicate Stays(limits: Limits, ops: seq<Op>, s: string, c: string)
    requires JoinsAreAtomic(ops)
  {
    exists i :: StaysSince(limits, ops, s, c, i)
  }

  // ----- moment by moment

  lemma EarlierLetsIn(limits: Limits, ops: seq<Op>, s: string, c: string, i: int)
    requires ops != [] && JoinsAreAtomic(ops)
    ensures LetsIn(limits, ops[..|ops| - 1], s, c, i) <==> LetsIn(limits, ops, s, c, i) && i != |ops| - 1
  {
    if 0 <= i < |ops| - 1 {
      assert ops[..|ops| - 1][..i] == ops[..i];
    }
  }

  lemma EarlierSpares(limits: Limits, ops: seq<Op>, s: string, c: string, i: int)
    requires ops != [] && 0 <= i < |ops| - 1
    ensures SparedSince(limits, ops, s, c, i)
            <==> SparedSince(limits, ops[..|ops| - 1], s, c, i) && Spares(limits, ops, s, c, |ops| - 1)
  {
    var front := ops[..|ops| - 1];
    forall k | 0 <= k < |front|
      ensures Spares(limits, front, s, c, k) == Spares(limits, ops, s, c, k)
    {
      assert front[..k] == ops[..k];
    }
  }

  lemma MomentIs(limits: Limits, ops: seq<Op>, s: string, c: string, i: int)
    requires ops != [] && JoinsAreAtomic(ops)
    ensures var last := |ops| - 1;
      StaysSince(limits, ops, s, c, i)
      <==> if i == last then LetsIn(limits, ops, s, c, last)
           else StaysSince(limits, ops[..last], s, c, i) && Spares(limits, ops, s, c, last)
  {
    EarlierLetsIn(limits, ops, s, c, i);
    if 0 <= i < |ops| - 1 {
      EarlierSpares(limits, ops, s, c, i);
    }
  }

  lemma StaysStep(limits: Limits, ops: seq<Op>, s: string, c: string)
    requires ops != [] && JoinsAreAtomic(ops)
    ensures var last := |ops| - 1;
      Stays(limits, ops, s, c)
      <==> LetsIn(limits, ops, s, c, last) || (Stays(limits, ops[..last], s, c) && Spares(limits, ops, s, c, last))
  {
    var last := |ops| - 1;
    forall i
      ensures StaysSince(limits, ops, s, c, i)
              <==> if i == last then LetsIn(limits, ops, s, c, last)
                   else StaysSince(limits, ops[..last], s, c, i) && Spares(limits, ops, s, c, last)
    {
      MomentIs(limits, ops, s, c, i);
    }
    assert !StaysSince(limits, ops[..last], s, c, last);
  }

  ghost predicate JoinLetsIn(limits: Limits, f: Flat, op: Op, s: string, c: string) {
    op.Join? && op.sessionId == s && op.peer.clientId == c && !FlatRefuses(limits, f - {c}, s, op.peer)
  }

  lemma FlatLifeStep(limits: Limits, f: Flat, op: Op, s: string, c: string, seen: int)
    requires !op.Add? && (Member(f, s, c) ==> f[c].stored.lastSeenAt == seen)
    ensures var z := FlatStep(limits, f, op);
      (Member(z, s, c) <==> JoinLetsIn(limits, f, op, s, c) || (Member(f, s, c) && SparesSeen(limits, op, c, seen)))
      && (Member(z, s, c) ==> z[c].stored.lastSeenAt == SeenAfter(seen, op, s, c))
  {
    if op.Join? {
      FlatJoinStep(limits, f, op, s, c);
    }
  }

  lemma FlatJoinStep(limits: Limits, f: Flat, op: Op, s: string, c: string)
    requires op.Join?
    ensures var z := FlatJoin(limits, f - {op.peer.clientId}, op.sessionId, op.peer, op.now);
      (Member(z, s, c) <==> JoinLetsIn(limits, f, op, s, c) || (Member(f, s, c) && op.peer.clientId != c))
      && (Member(z, s, c) ==> z[c].stored.lastSeenAt == if op.peer.clientId == c then op.now else f[c].stored.lastSeenAt)
  {
  }

  lemma {:induction false} FlatLife(limits: Limits, ops: seq<Op>, s: string, c: string)
    requires JoinsAreAtomic(ops)
    ensures var f := FlatAfter(limits, ops);
      (Member(f, s, c) <==> Stays(limits, ops, s, c)) && (Member(f, s, c) ==> f[c].stored.lastSeenAt == SeenAt(ops, s, c))
  {
    if ops != [] {
      FlatLife(limits, ops[..|ops| - 1], s, c);
      StaysStep(limits, ops, s, c);
      FlatLifeStep(limits, FlatAfter(limits, ops[..|ops| - 1]), ops[|ops| - 1], s, c, SeenAt(ops[..|ops| - 1], s, c));
    }
  }

  /** In every run in which joins are atomic, a client is in a session exactly if it was let in there,
      has not been removed and has not joined again since, and at every sweep since then had been seen
      (by its join or a heartbeat) at most the time to live before. */
  lemma MembersAreThoseWhoStay(limits: Limits, ops: seq<Op>, states: seq<Registry>, s: string, c: string)
    requires IsRun(limits, ops, states) && JoinsAreAtomic(ops)
    ensures Has(states[|ops|], s, c) <==> Stays(limits, ops, s, c)
  {
    RefinesAlways(limits, ops, states, |ops|);
    assert ops[..|ops|] == ops;
    FlatLife(limits, ops, s, c);
    assert Has(states[|ops|], s, c) <==> Member(FlatAfter(limits, ops), s, c);
  }

  // ----- when a join is refused

  // With the peer in the session, every limit is kept and no role is held twice.
  ghost predicate Fits(limits: Limits, r: Registry, s: string, p: Peer, now: int) {
    WithinLimits(limits, Added(r, s, p, now)) && OnePerRole(Added(r, s, p, now))
  }

  lemma AddedBreaksNothing(limits: Limits, r: Registry, s: string, p: Peer, now: int)
    requires Sound(limits, r) && limits.maxPeersPerSession >= 1 && Verdict(limits, r, s, p).None?
    ensures Fits(limits, r, s, p, now)
  {
    AddedIsWithinLimits(limits, r, s, p, now);
    AddedIsOnePerRole(limits, r, s, p, now);
  }

  lemma RoleIsTaken(r: Registry, s: string, p: Peer, now: int, c: string)
    requires c != p.clientId && RoleHeld(PeersOf(r, s), p.role, c)
    ensures !OnePerRole(Added(r, s, p, now))
  {
    AddedHas(r, s, p, now, s, c);
    AddedHas(r, s, p, now, s, p.clientId);
    var z := Added(r, s, p, now);
    assert Has(z, s, c) && Has(z, s, p.clientId) && z[s][c].peer.role == z[s][p.clientId].peer.role;
  }

  lemma NoSessionLeft(limits: Limits, r: Registry, s: string, p: Peer, now: int)
    requires s !in r && |r| >= limits.maxSessions
    ensures |Added(r, s, p, now)| > limits.maxSessions
  {
    var z := Added(r, s, p, now);
    assert z.Keys == r.Keys + {s} && |r.Keys| == |r| && |z.Keys| == |z|;
  }

  lemma SessionIsFull(limits: Limits, r: Registry, s: string, p: Peer, now: int)
    requires s in r && !Has(r, s, p.clientId) && |r[s]| >= limits.maxPeersPerSession
    ensures |Added(r, s, p, now)[s]| > limits.maxPeersPerSession
  {
    assert Added(r, s, p, now)[s].Keys == r[s].Keys + {p.clientId};
    assert |r[s].Keys| == |r[s]|;
  }

  lemma AllIsFull(limits: Limits, r: Registry, s: string, p: Peer, now: int)
    requires !Has(r, s, p.clientId) && Total(r) >= limits.maxTotalPeers
    ensures Total(Added(r, s, p, now)) > limits.maxTotalPeers
  {
    AddedMembers(r, s, p, now);
    assert (s, p.clientId) !in Memberships(r);
  }

  lemma RefusedBreaksSomething(limits: Limits, r: Registry, s: string, p: Peer, now: int)
    requires Verdict(limits, r, s, p).Some?
    ensures !Fits(limits, r, s, p, now)
  {
    match Verdict(limits, r, s, p).value
    case SessionLimit => NoSessionLeft(limits, r, s, p, now);
    case RoleTaken =>
      var c :| c != p.clientId && RoleHeld(PeersOf(r, s), p.role, c);
      RoleIsTaken(r, s, p, now, c);
    case PeerLimit => SessionIsFull(limits, r, s, p, now);
    case TotalLimit => AllIsFull(limits, r, s, p, now);
  }

  /** A peer is refused exactly when letting it in would break a limit or give a role to two clients. */
  lemma RefusedOnlyIfNeeded(limits: Limits, r: Registry, s: string, p: Peer, now: int)
    requires Sound(limits, r) && limits.maxPeersPerSession >= 1
    ensures Verdict(limits, r, s, p).None? <==> Fits(limits, r, s, p, now)
  {
    if Verdict(limits, r, s, p).None? {
      AddedBreaksNothing(limits, r, s, p, now);
    } else {
      RefusedBreaksSomething(limits, r, s, p, now);
    }
  }
}
