// The session registry of the signaling server: sessions of clients in roles, under three
// capacity limits. What each method computes is a function of the nested map; the properties of
// these functions over whole runs are in SessionRuns.

module Sessions {
  import opened Basics

  datatype Role = HOST | VIEWER

  datatype Peer = Peer(clientId: string, role: Role, displayName: Option<string>)

  datatype StoredPeer = StoredPeer(peer: Peer, lastSeenAt: int)

  type Peers = map<string, StoredPeer>

  type Registry = map<string, Peers>

  datatype Limits = Limits(maxSessions: nat, maxPeersPerSession: nat, maxTotalPeers: nat, peerTtlMs: nat)

  datatype CapacityError = SessionLimit | RoleTaken | PeerLimit | TotalLimit

  datatype RemovedPeer = RemovedPeer(sessionId: string, peer: Peer)

  // ----- reading the nested map

  function PeersOf(r: Registry, s: string): Peers { if s in r then r[s] else map[] }

  predicate Has(r: Registry, s: string, c: string) { s in r && c in r[s] }

  function Memberships(r: Registry): set<(string, string)> { set s, c | s in r && c in r[s] :: (s, c) }

  function Total(r: Registry): nat { |Memberships(r)| }

  predicate RoleHeld(peers: Peers, role: Role, c: string) { c in peers && peers[c].peer.role == role }

  // ----- what the methods compute

  ghost function Verdict(limits: Limits, r: Registry, s: string, p: Peer): Option<CapacityError> {
    if s !in r && |r| >= limits.maxSessions then Some(SessionLimit)
    else if exists c :: c != p.clientId && RoleHeld(PeersOf(r, s), p.role, c) then Some(RoleTaken)
    else if !Has(r, s, p.clientId) && s in r && |r[s]| >= limits.maxPeersPerSession then Some(PeerLimit)
    else if !Has(r, s, p.clientId) && Total(r) >= limits.maxTotalPeers then Some(TotalLimit)
    else None
  }

  function Added(r: Registry, s: string, p: Peer, now: int): Registry {
    r[s := PeersOf(r, s)[p.clientId := StoredPeer(p, now)]]
  }

  // A session that loses its last peer is dropped.
  function WithPeers(r: Registry, s: string, peers: Peers): Registry {
    if peers == map[] then r - {s} else r[s := peers]
  }

  function Removed(r: Registry, s: string, c: string): Registry { WithPeers(r, s, PeersOf(r, s) - {c}) }

  function Touched(r: Registry, s: string, c: string, now: int): Registry {
    if Has(r, s, c) then r[s := r[s][c := r[s][c].(lastSeenAt := now)]] else r
  }

  predicate IsLive(limits: Limits, p: StoredPeer, now: int) { now - p.lastSeenAt <= limits.peerTtlMs }

  function LivePeers(limits: Limits, peers: Peers, now: int): Peers {
    map c | c in peers && IsLive(limits, peers[c], now) :: peers[c]
  }

  function Swept(limits: Limits, r: Registry, now: int): Registry {
    map s | s in r && LivePeers(limits, r[s], now) != map[] :: LivePeers(limits, r[s], now)
  }

  // ----- what the registry maintains

  ghost predicate NoEmptySession(r: Registry) { forall s :: s in r ==> r[s] != map[] }

  ghost predicate KeyedByClient(r: Registry) { forall s, c :: Has(r, s, c) ==> r[s][c].peer.clientId == c }

  ghost predicate OnePerRole(r: Registry) {
    forall s, c, d :: Has(r, s, c) && Has(r, s, d) && r[s][c].peer.role == r[s][d].peer.role ==> c == d
  }

  ghost predicate WithinLimits(limits: Limits, r: Registry) {
    |r| <= limits.maxSessions && Total(r) <= limits.maxTotalPeers
    && forall s :: s in r ==> |r[s]| <= limits.maxPeersPerSession
  }

  ghost predicate OneSessionPerClient(r: Registry) { forall s, t, c :: Has(r, s, c) && Has(r, t, c) ==> s == t }

  ghost predicate Sound(limits: Limits, r: Registry) {
    NoEmptySession(r) && KeyedByClient(r) && OnePerRole(r) && WithinLimits(limits, r)
  }

  class SessionsService {
    var sessions: Registry
    const limits: Limits

    constructor (limits: Limits)
      ensures sessions == map[] && this.limits == limits
    {
      sessions := map[];
      this.limits := limits;
    }

    method AddPeer(sessionId: string, peer: Peer, now: int) returns (r: Result)
      requires KeyedByClient(sessions) && OnePerRole(sessions)
      modifies this
      ensures match Verdict(limits, old(sessions), sessionId, peer)
        case Some(error) => r == Refused(error) && sessions == old(sessions)
        case None =>
          sessions == Added(old(sessions), sessionId, peer, now)
          && r == Joined(OthersIn(PeersOf(old(sessions), sessionId), peer.clientId))
    {
      var error := AssertCapacity(sessionId, peer);
      if error.Some? {
        return Refused(error.value);
      }
      var peers := if sessionId in sessions then sessions[sessionId] else map[];
      peers := peers[peer.clientId := StoredPeer(peer, now)];
      sessions := sessions[sessionId := peers];
      assert OthersIn(peers, peer.clientId) == OthersIn(PeersOf(old(sessions), sessionId), peer.clientId);
      r := Joined(OthersIn(peers, peer.clientId));
    }

    method AssertCapacity(sessionId: string, peer: Peer) returns (error: Option<CapacityError>)
      requires KeyedByClient(sessions) && OnePerRole(sessions)
      ensures error == Verdict(limits, sessions, sessionId, peer)
    {
      var replacingExistingPeer := sessionId in sessions && peer.clientId in sessions[sessionId];
      if sessionId !in sessions && |sessions| >= limits.maxSessions {
        return Some(SessionLimit);
      }
      var sameRolePeer := GetPeerByRole(sessionId, peer.role);
      if sameRolePeer.Some? && sameRolePeer.value.clientId != peer.clientId {
        assert RoleHeld(PeersOf(sessions, sessionId), peer.role, sameRolePeer.value.clientId);
        return Some(RoleTaken);
      }
      assert forall c :: RoleHeld(PeersOf(sessions, sessionId), peer.role, c) ==> c == peer.clientId;
      if !replacingExistingPeer && sessionId in sessions && |sessions[sessionId]| >= limits.maxPeersPerSession {
        return Some(PeerLimit);
      }
      var total := GetTotalPeerCount();
      if !replacingExistingPeer && total >= limits.maxTotalPeers {
        return Some(TotalLimit);
      }
      error := None;
    }

    method GetTotalPeerCount() returns (total: nat)
      ensures total == Total(sessions)
    {
      total := 0;
      var rest := sessions.Keys;
      ghost var counted: Registry := map[];
      assert Memberships(counted) == {};
      while rest != {}
        invariant rest <= sessions.Keys
        invariant counted == map s | s in sessions && s !in rest :: sessions[s]
        invariant total == Total(counted)
        decreases |rest|
      {
        var s :| s in rest;
        total := total + |sessions[s]|;
        rest := rest - {s};
        TotalOfExtension(counted, s, sessions[s]);
        counted := counted[s := sessions[s]];
      }
      assert counted == sessions;
    }

    // The one peer of a session that holds a role.
    method GetPeerByRole(sessionId: string, role: Role) returns (found: Option<Peer>)
      requires KeyedByClient(sessions) && OnePerRole(sessions)
      ensures match found
        case Some(p) =>
          p.role == role && Has(sessions, sessionId, p.clientId) && sessions[sessionId][p.clientId].peer == p
          && forall c :: RoleHeld(PeersOf(sessions, sessionId), role, c) ==> c == p.clientId
        case None => forall c :: !RoleHeld(PeersOf(sessions, sessionId), role, c)
    {
      var peers := if sessionId in sessions then sessions[sessionId] else map[];
      var rest := peers.Keys;
      while rest != {}
        invariant rest <= peers.Keys
        invariant forall c :: RoleHeld(peers, role, c) ==> c in rest
        decreases |rest|
      {
        var c :| c in rest;
        if peers[c].peer.role == role {
          assert Has(sessions, sessionId, c);
          return Some(peers[c].peer);
        }
        rest := rest - {c};
      }
      found := None;
    }

    method GetPeer(clientId: string) returns (found: Option<RemovedPeer>)
      ensures match found
        case Some(p) => Has(sessions, p.sessionId, clientId) && sessions[p.sessionId][clientId].peer == p.peer
        case None => forall s :: !Has(sessions, s, clientId)
    {
      var rest := sessions.Keys;
      while rest != {}
        invariant rest <= sessions.Keys
        invariant forall s :: Has(sessions, s, clientId) ==> s in rest
        decreases |rest|
      {
        var s :| s in rest;
        if clientId in sessions[s] {
          return Some(RemovedPeer(s, sessions[s][clientId].peer));
        }
        rest := rest - {s};
      }
      found := None;
    }

    // Removes the client from the first session it is found in.
    method RemovePeer(clientId: string) returns (removed: Option<RemovedPeer>)
      modifies this
      ensures match removed
        case Some(p) =>
          Has(old(sessions), p.sessionId, clientId) && old(sessions)[p.sessionId][clientId].peer == p.peer
          && sessions == Removed(old(sessions), p.sessionId, clientId)
        case None => sessions == old(sessions) && forall s :: !Has(sessions, s, clientId)
    {
      removed := GetPeer(clientId);
      if removed.Some? {
        var sessionId := removed.value.sessionId;
        var peers := sessions[sessionId] - {clientId};
        sessions := if |peers| == 0 then sessions - {sessionId} else sessions[sessionId := peers];
      }
    }

    method TouchPeer(sessionId: string, clientId: string, now: int) returns (known: bool)
      modifies this
      ensures known == Has(old(sessions), sessionId, clientId)
      ensures sessions == Touched(old(sessions), sessionId, clientId, now)
    {
      known := sessionId in sessions && clientId in sessions[sessionId];
      if known {
        var peer := sessions[sessionId][clientId].(lastSeenAt := now);
        sessions := sessions[sessionId := sessions[sessionId][clientId := peer]];
      }
    }

    method SweepSession(sessionId: string, now: int) returns (removed: seq<RemovedPeer>)
      requires sessionId in sessions
      modifies this
      ensures sessions == WithPeers(old(sessions), sessionId, LivePeers(limits, old(sessions)[sessionId], now))
      ensures Lists(removed, sessionId, ExpiredPeers(limits, old(sessions)[sessionId], now))
    {
      var peers: Peers;
      peers, removed := ExpirePeers(sessionId, sessions[sessionId], now);
      sessions := if |peers| == 0 then sessions - {sessionId} else sessions[sessionId := peers];
    }

    method ExpirePeers(sessionId: string, all: Peers, now: int) returns (peers: Peers, removed: seq<RemovedPeer>)
      ensures peers == LivePeers(limits, all, now)
      ensures Lists(removed, sessionId, ExpiredPeers(limits, all, now))
    {
      removed := [];
      peers := all;
      var rest := all.Keys;
      ghost var gone: Peers := map[];
      while rest != {}
        invariant rest <= all.Keys
        invariant peers == Kept(limits, all, rest, now) && gone == Gone(limits, all, rest, now)
        invariant Lists(removed, sessionId, gone)
        decreases |rest|
      {
        var c :| c in rest;
        SweptOneMore(limits, all, rest, now, c);
        if !IsLive(limits, all[c], now) {
          ListsOneMore(removed, sessionId, gone, c, all[c]);
          gone := gone[c := all[c]];
          peers := peers - {c};
          removed := removed + [RemovedPeer(sessionId, all[c].peer)];
        }
        rest := rest - {c};
      }
      assert gone == ExpiredPeers(limits, all, now);
    }

    /** Sweeps exactly the peers that were not seen for longer than the time to live, and reports
        each of them once. */
    method RemoveExpiredPeers(now: int) returns (removed: seq<RemovedPeer>)
      modifies this
      ensures sessions == Swept(limits, old(sessions), now)
      ensures |removed| == Total(old(sessions)) - Total(sessions)
      ensures forall s, c :: Has(sessions, s, c) <==>
        Has(old(sessions), s, c) && now - old(sessions)[s][c].lastSeenAt <= limits.peerTtlMs
      ensures forall s, p :: RemovedPeer(s, p) in removed <==>
        exists c :: Has(old(sessions), s, c) && now - old(sessions)[s][c].lastSeenAt > limits.peerTtlMs
                    && old(sessions)[s][c].peer == p
    {
      removed := [];
      var rest := sessions.Keys;
      ghost var before := sessions;
      while rest != {}
        invariant rest <= before.Keys
        invariant sessions == PartlySwept(limits, before, now, rest)
        invariant Reported(limits, before, removed, now, rest)
        invariant |removed| == Total(before) - Total(sessions)
        decreases |rest|
      {
        var s :| s in rest;
        TotalOfReplacement(sessions, s, LivePeers(limits, before[s], now));
        LiveAndExpired(limits, before[s], now);
        SessionSwept(limits, before, now, rest, s);
        var more := SweepSession(s, now);
        rest := rest - {s};
        ReportedOneMore(limits, before, removed, more, now, rest, s);
        removed := removed + more;
      }
      assert sessions == Swept(limits, before, now);
      SweptIsLive(limits, before, now);
    }
  }

  lemma SweptIsLive(limits: Limits, r: Registry, now: int)
    ensures forall s, c :: Has(Swept(limits, r, now), s, c) <==> Has(r, s, c) && now - r[s][c].lastSeenAt <= limits.peerTtlMs
  {
    forall s, c
      ensures Has(Swept(limits, r, now), s, c) <==> Has(r, s, c) && now - r[s][c].lastSeenAt <= limits.peerTtlMs
    {
      SweptHas(limits, r, now, s, c);
    }
  }

  // Who a sweep leaves: the peers seen at most the time to live ago, as they were.
  lemma SweptHas(limits: Limits, r: Registry, now: int, s: string, c: string)
    ensures var z := Swept(limits, r, now);
      (Has(z, s, c) <==> Has(r, s, c) && now - r[s][c].lastSeenAt <= limits.peerTtlMs) && (Has(z, s, c) ==> z[s][c] == r[s][c])
  {
    if Has(r, s, c) && IsLive(limits, r[s][c], now) {
      assert c in LivePeers(limits, r[s], now);
    }
  }

  datatype Result = Joined(existing: map<string, Peer>) | Refused(error: CapacityError)

  function OthersIn(peers: Peers, c: string): map<string, Peer> { map d | d in peers && d != c :: peers[d].peer }

  function ExpiredPeers(limits: Limits, peers: Peers, now: int): Peers {
    map c | c in peers && !IsLive(limits, peers[c], now) :: peers[c]
  }

  // What a sweep keeps and what it has taken out while the clients in `rest` are still to come.
  function Kept(limits: Limits, all: Peers, rest: set<string>, now: int): Peers {
    map c | c in all && (c in rest || IsLive(limits, all[c], now)) :: all[c]
  }

  function Gone(limits: Limits, all: Peers, rest: set<string>, now: int): Peers {
    map c | c in all && c !in rest && !IsLive(limits, all[c], now) :: all[c]
  }

  lemma SweptOneMore(limits: Limits, all: Peers, rest: set<string>, now: int, c: string)
    requires rest <= all.Keys && c in rest
    ensures IsLive(limits, all[c], now) ==>
      Kept(limits, all, rest - {c}, now) == Kept(limits, all, rest, now)
      && Gone(limits, all, rest - {c}, now) == Gone(limits, all, rest, now)
    ensures !IsLive(limits, all[c], now) ==>
      Kept(limits, all, rest - {c}, now) == Kept(limits, all, rest, now) - {c}
      && Gone(limits, all, rest - {c}, now) == Gone(limits, all, rest, now)[c := all[c]]
      && c !in Gone(limits, all, rest, now)
  {
  }

  // The list names exactly these peers, as many times as there are peers.
  ghost predicate Lists(removed: seq<RemovedPeer>, s: string, peers: Peers) {
    |removed| == |peers|
    && (forall i :: 0 <= i < |removed| ==> removed[i].sessionId == s && exists c :: c in peers && peers[c].peer == removed[i].peer)
    && forall c :: c in peers ==> RemovedPeer(s, peers[c].peer) in removed
  }

  lemma ListsOneMore(removed: seq<RemovedPeer>, s: string, peers: Peers, c: string, p: StoredPeer)
    requires Lists(removed, s, peers) && c !in peers
    ensures Lists(removed + [RemovedPeer(s, p.peer)], s, peers[c := p])
  {
    var more, bigger := removed + [RemovedPeer(s, p.peer)], peers[c := p];
    forall i | 0 <= i < |more|
      ensures more[i].sessionId == s && exists d :: d in bigger && bigger[d].peer == more[i].peer
    {
      if i < |removed| {
        var d :| d in peers && peers[d].peer == removed[i].peer;
        assert d in bigger && bigger[d].peer == more[i].peer;
      } else {
        assert bigger[c].peer == more[i].peer;
      }
    }
  }

  // Sessions in `rest` are still as they were; the others are swept.
  function PartlySwept(limits: Limits, before: Registry, now: int, rest: set<string>): Registry {
    map s | s in before && (s in rest || LivePeers(limits, before[s], now) != map[])
      :: if s in rest then before[s] else LivePeers(limits, before[s], now)
  }

  lemma SessionSwept(limits: Limits, before: Registry, now: int, rest: set<string>, s: string)
    requires rest <= before.Keys && s in rest
    ensures s in PartlySwept(limits, before, now, rest) && PartlySwept(limits, before, now, rest)[s] == before[s]
    ensures PartlySwept(limits, before, now, rest - {s})
            == WithPeers(PartlySwept(limits, before, now, rest), s, LivePeers(limits, before[s], now))
  {
  }

  ghost predicate Expelled(limits: Limits, before: Registry, s: string, p: Peer, now: int) {
    exists c :: Has(before, s, c) && now - before[s][c].lastSeenAt > limits.peerTtlMs && before[s][c].peer == p
  }

  ghost predicate Reported(limits: Limits, before: Registry, removed: seq<RemovedPeer>, now: int, rest: set<string>) {
    forall s, p :: RemovedPeer(s, p) in removed <==> s !in rest && Expelled(limits, before, s, p, now)
  }

  lemma ReportedOneMore(limits: Limits, before: Registry, removed: seq<RemovedPeer>, more: seq<RemovedPeer>, now: int,
                        rest: set<string>, s: string)
    requires s in before && s !in rest && Reported(limits, before, removed, now, rest + {s})
    requires Lists(more, s, ExpiredPeers(limits, before[s], now))
    ensures Reported(limits, before, removed + more, now, rest)
  {
    forall t, p
      ensures RemovedPeer(t, p) in removed + more <==> t !in rest && Expelled(limits, before, t, p, now)
    {
      if t == s {
        ListedIsExpelled(limits, before, more, now, s, p);
        assert RemovedPeer(t, p) !in removed;
      } else {
        assert RemovedPeer(t, p) !in more;
      }
    }
  }

  lemma ListedIsExpelled(limits: Limits, before: Registry, more: seq<RemovedPeer>, now: int, s: string, p: Peer)
    requires s in before && Lists(more, s, ExpiredPeers(limits, before[s], now))
    ensures RemovedPeer(s, p) in more <==> Expelled(limits, before, s, p, now)
  {
    var gone := ExpiredPeers(limits, before[s], now);
    if Expelled(limits, before, s, p, now) {
      var c :| Has(before, s, c) && now - before[s][c].lastSeenAt > limits.peerTtlMs && before[s][c].peer == p;
      assert c in gone;
    }
    if RemovedPeer(s, p) in more {
      var i :| 0 <= i < |more| && more[i] == RemovedPeer(s, p);
      var c :| c in gone && gone[c].peer == more[i].peer;
      assert Has(before, s, c);
    }
  }

  lemma TotalOfExtension(r: Registry, s: string, peers: Peers)
    requires s !in r
    ensures Total(r[s := peers]) == Total(r) + |peers|
  {
    var pairs := set c | c in peers :: (s, c);
    PairsOf(s, peers.Keys);
    assert pairs == set c | c in peers.Keys :: (s, c);
    assert Memberships(r[s := peers]) == Memberships(r) + pairs;
    assert Memberships(r) !! pairs;
  }

  lemma {:induction false} PairsOf(s: string, clients: set<string>)
    ensures |set c | c in clients :: (s, c)| == |clients|
  {
    if clients != {} {
      var c :| c in clients;
      PairsOf(s, clients - {c});
      assert (set d | d in clients :: (s, d)) == (set d | d in clients - {c} :: (s, d)) + {(s, c)};
    }
  }

  lemma TotalOfReplacement(r: Registry, s: string, peers: Peers)
    requires s in r
    ensures Total(WithPeers(r, s, peers)) == Total(r) - |r[s]| + |peers|
  {
    var others := r - {s};
    TotalOfExtension(others, s, r[s]);
    assert others[s := r[s]] == r;
    TotalOfExtension(others, s, peers);
    assert others[s := peers] == r[s := peers];
  }

  lemma LiveAndExpired(limits: Limits, peers: Peers, now: int)
    ensures |LivePeers(limits, peers, now)| + |ExpiredPeers(limits, peers, now)| == |peers|
  {
    var live, expired := LivePeers(limits, peers, now), ExpiredPeers(limits, peers, now);
    assert peers.Keys == live.Keys + expired.Keys && live.Keys !! expired.Keys;
    assert |peers| == |peers.Keys| && |live| == |live.Keys| && |expired| == |expired.Keys|;
  }
}
