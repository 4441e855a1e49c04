// The gateway object: the code between the awaits of `joinSession`, working on the limiters, the
// approval cache and the session registry in place. Each method is one event of JoinGate.

module SignalingGateway {
  import opened Basics
  import opened Sessions
  import opened SessionRuns
  import opened JoinGate
  import RateLimit

  // The registry goes from r to z by these operations, one after the other.
  ghost predicate Performs(limits: Sessions.Limits, r: Registry, ops: seq<Op>, z: Registry)
    decreases |ops|
  {
    if ops == [] then z == r else exists m :: Step(limits, r, ops[0], m) && Performs(limits, m, ops[1..], z)
  }

  lemma PerformsNone(limits: Sessions.Limits, r: Registry)
    ensures Performs(limits, r, [], r)
  {
  }

  lemma PerformsOne(limits: Sessions.Limits, r: Registry, op: Op, z: Registry)
    requires Step(limits, r, op, z)
    ensures Performs(limits, r, [op], z)
  {
    PerformsNone(limits, z);
    assert [op][1..] == [];
  }

  lemma PerformsTwo(limits: Sessions.Limits, r: Registry, first: Op, m: Registry, second: Op, z: Registry)
    requires Step(limits, r, first, m) && Step(limits, m, second, z)
    ensures Performs(limits, r, [first, second], z)
  {
    PerformsOne(limits, m, second, z);
    assert [first, second][1..] == [second];
  }

  method JoinAs(service: SessionsService, session: string, peer: Peer, now: int)
    requires Sound(service.limits, service.sessions)
    modifies service
    ensures Performs(service.limits, old(service.sessions), [Join(session, peer, now)], service.sessions)
  {
    var joined := JoinSession(service, session, peer, now);
    PerformsOne(service.limits, old(service.sessions), Join(session, peer, now), service.sessions);
  }

  method ExpirePeers(service: SessionsService, now: int)
    modifies service
    ensures service.sessions == Swept(service.limits, old(service.sessions), now)
    ensures Performs(service.limits, old(service.sessions), [Sweep(now)], service.sessions)
  {
    var expired := service.RemoveExpiredPeers(now);
    PerformsOne(service.limits, old(service.sessions), Sweep(now), service.sessions);
  }

  method ExpireThenJoin(service: SessionsService, session: string, peer: Peer, now: int)
    requires Sound(service.limits, service.sessions)
    modifies service
    ensures Performs(service.limits, old(service.sessions), [Sweep(now), Join(session, peer, now)], service.sessions)
  {
    var expired := service.RemoveExpiredPeers(now);
    ghost var swept := service.sessions;
    SweptIsBelow(service.limits, old(service.sessions), now);
    BelowIsSound(service.limits, swept, old(service.sessions));
    var joined := JoinSession(service, session, peer, now);
    PerformsTwo(service.limits, old(service.sessions), Sweep(now), swept, Join(session, peer, now), service.sessions);
  }

  // What the first part of a join does to the registry.
  function StartOps(client: string, session: Option<string>, role: Option<Role>, name: Option<string>, now: int,
                    admitted: bool): seq<Op> {
    if session.None? || role.None? then []
    else if admitted then [Sweep(now), Join(session.value, Peer(client, HOST, name), now)]
    else [Sweep(now)]
  }

  lemma StartOpsAre(l: GateLimits, g: Gate, e: Event)
    requires e.Start?
    ensures RegistryOps(l, g, e)
            == StartOps(e.client, SanitizeSessionId(e.rawSession), e.role, e.name, e.now, Admits(l, g, e))
  {
  }

  // A valid join is counted by the limiter, and suspended if a viewer's is allowed.
  lemma StartCounted(l: GateLimits, g: Gate, e: Event)
    requires e.Start? && Valid(e)
    ensures Apply(l, g, e)
            == g.(steps := g.steps + 1,
                  joinAttempts := RateLimit.Step(l.join, g.joinAttempts, RateLimit.Consume(e.address, e.now)).0,
                  calls := if JoinAllowed(l, g, e) && e.role == Some(VIEWER)
                           then g.calls[g.steps := InFlight(StartedCall(e), AwaitSettings)] else g.calls)
  {
  }

  method RegisterStart(service: SessionsService, client: string, session: Option<string>, role: Option<Role>,
                       name: Option<string>, now: int, admitted: bool)
    requires Sound(service.limits, service.sessions)
    modifies service
    ensures Performs(service.limits, old(service.sessions), StartOps(client, session, role, name, now, admitted), service.sessions)
  {
    if session.None? || role.None? {
      PerformsNone(service.limits, service.sessions);
    } else if !admitted {
      ExpirePeers(service, now);
    } else {
      ExpireThenJoin(service, session.value, Peer(client, HOST, name), now);
    }
  }

  // The host of a session, if there is one and its socket is still connected.
  method FindHost(service: SessionsService, session: string, connected: bool) returns (host: Option<string>)
    requires KeyedByClient(service.sessions) && OnePerRole(service.sessions)
    ensures host.Some? <==> connected && exists c :: RoleHeld(PeersOf(service.sessions, session), HOST, c)
    ensures host.Some? ==> RoleHeld(PeersOf(service.sessions, session), HOST, host.value)
  {
    var peer := service.GetPeerByRole(session, HOST);
    if peer.Some? {
      assert RoleHeld(PeersOf(service.sessions, session), HOST, peer.value.clientId);
    }
    host := if peer.Some? && connected then Some(peer.value.clientId) else None;
  }

  class SignalingGateway {
    const limits: GateLimits
    const joinAttemptLimiter: RateLimit.SlidingWindowRateLimiter
    const passwordAttemptLimiter: RateLimit.SlidingWindowRateLimiter
    const approvalRequestLimiter: RateLimit.SlidingWindowRateLimiter
    const sessions: SessionsService
    var recentApprovedViewers: map<string, int>
    var calls: map<nat, InFlight>
    var steps: nat

    ghost predicate Valid()
      reads this
    {
      joinAttemptLimiter.limits == limits.join && passwordAttemptLimiter.limits == limits.password
      && approvalRequestLimiter.limits == limits.approval
      && joinAttemptLimiter != passwordAttemptLimiter && joinAttemptLimiter != approvalRequestLimiter
      && passwordAttemptLimiter != approvalRequestLimiter
    }

    ghost function State(): Gate
      reads this, joinAttemptLimiter, passwordAttemptLimiter, approvalRequestLimiter
    {
      Gate(steps, calls, recentApprovedViewers, joinAttemptLimiter.events, passwordAttemptLimiter.events,
           approvalRequestLimiter.events)
    }

    constructor (limits: GateLimits, sessions: SessionsService)
      ensures Valid() && State() == CLOSED && this.sessions == sessions && this.limits == limits
    {
      this.limits := limits;
      this.sessions := sessions;
      joinAttemptLimiter := new RateLimit.SlidingWindowRateLimiter(limits.join.maxEvents, limits.join.windowMs);
      passwordAttemptLimiter := new RateLimit.SlidingWindowRateLimiter(limits.password.maxEvents, limits.password.windowMs);
      approvalRequestLimiter := new RateLimit.SlidingWindowRateLimiter(limits.approval.maxEvents, limits.approval.windowMs);
      recentApprovedViewers := map[];
      calls := map[];
      steps := 0;
    }

    // Up to the first await, apart from the registry.
    method DecideStart(client: string, address: string, rawSession: string, role: Option<Role>, name: Option<string>, now: int)
        returns (admitted: bool)
      requires Valid()
      modifies this, joinAttemptLimiter
      ensures Valid() && State() == Apply(limits, old(State()), Start(client, address, rawSession, role, name, now))
      ensures admitted == Admits(limits, old(State()), Start(client, address, rawSession, role, name, now))
    {
      var session := SanitizeSessionId(rawSession);
      var call := steps;
      steps := steps + 1;
      if session.None? || role.None? {
        return false;
      }
      StartCounted(limits, old(State()), Start(client, address, rawSession, role, name, now));
      var allowed := joinAttemptLimiter.Consume(address, now);
      admitted := allowed && role.value == HOST;
      if allowed && !admitted {
        calls := calls[call := InFlight(Call(client, address, session.value, name), AwaitSettings)];
      }
    }

    method StartJoin(client: string, address: string, rawSession: string, role: Option<Role>, name: Option<string>, now: int)
      requires Valid() && Sound(sessions.limits, sessions.sessions)
      modifies this, joinAttemptLimiter, sessions
      ensures Valid() && State() == Apply(limits, old(State()), Start(client, address, rawSession, role, name, now))
      ensures Performs(sessions.limits, old(sessions.sessions),
                       RegistryOps(limits, old(State()), Start(client, address, rawSession, role, name, now)), sessions.sessions)
    {
      var admitted := DecideStart(client, address, rawSession, role, name, now);
      var session := SanitizeSessionId(rawSession);
      RegisterStart(sessions, client, session, role, name, now, admitted);
      StartOpsAre(limits, old(State()), Start(client, address, rawSession, role, name, now));
    }

    method ReadSettings(call: nat, requireApproval: Option<bool>, now: int)
      requires Valid() && Enabled(State(), SettingsRead(call, requireApproval, now))
      modifies this, passwordAttemptLimiter
      ensures Valid() && State() == Apply(limits, old(State()), SettingsRead(call, requireApproval, now))
    {
      var key := Key(calls[call].call.address, calls[call].call.session);
      steps := steps + 1;
      var allowed := passwordAttemptLimiter.IsAllowed(key, now);
      if !allowed {
        calls := calls - {call};
        return;
      }
      var required := if requireApproval.Some? then requireApproval.value else true;
      calls := calls[call := InFlight(calls[call].call, AwaitPassword(required))];
    }

    method IsRecentlyApproved(key: string, now: int) returns (recent: bool)
      modifies this
      ensures recent == RecentlyApproved(old(recentApprovedViewers), key, now)
      ensures recentApprovedViewers == LookedUp(old(recentApprovedViewers), key, now)
      ensures calls == old(calls) && steps == old(steps)
    {
      if key !in recentApprovedViewers || recentApprovedViewers[key] == 0 {
        return false;
      }
      if recentApprovedViewers[key] <= now {
        recentApprovedViewers := recentApprovedViewers - {key};
        return false;
      }
      recent := true;
    }

    // The step after the password check, apart from the registry. `host` is the session's host, if
    // it is there and still has its socket.
    method DecidePassword(call: nat, accepted: bool, host: Option<string>, now: int) returns (admitted: bool)
      requires Valid() && Enabled(State(), Verified(call, accepted, host, now))
      modifies this, passwordAttemptLimiter, approvalRequestLimiter
      ensures Valid() && State() == Apply(limits, old(State()), Verified(call, accepted, host, now))
      ensures admitted == Admits(limits, old(State()), Verified(call, accepted, host, now))
    {
      var f := calls[call];
      var key := Key(f.call.address, f.call.session);
      steps := steps + 1;
      calls := calls - {call};
      if !accepted {
        passwordAttemptLimiter.Record(key, now);
        return false;
      }
      passwordAttemptLimiter.Reset(key);
      if !f.phase.approvalRequired {
        return true;
      }
      admitted := IsRecentlyApproved(key, now);
      if !admitted {
        var allowed := approvalRequestLimiter.Consume(key, now);
        if allowed && host.Some? {
          calls := calls[call := InFlight(f.call, AwaitApproval)];
        }
      }
    }

    method PasswordChecked(call: nat, accepted: bool, hostConnected: bool, now: int) returns (host: Option<string>)
      requires Valid() && Enabled(State(), Verified(call, accepted, None, now)) && Sound(sessions.limits, sessions.sessions)
      modifies this, passwordAttemptLimiter, approvalRequestLimiter, sessions
      ensures host.Some? ==> RoleHeld(PeersOf(old(sessions.sessions), old(calls)[call].call.session), HOST, host.value)
      ensures host.None? && hostConnected ==>
        forall c :: !RoleHeld(PeersOf(old(sessions.sessions), old(calls)[call].call.session), HOST, c)
      ensures Valid() && State() == Apply(limits, old(State()), Verified(call, accepted, host, now))
      ensures Performs(sessions.limits, old(sessions.sessions),
                       RegistryOps(limits, old(State()), Verified(call, accepted, host, now)), sessions.sessions)
    {
      var c := calls[call].call;
      host := FindHost(sessions, c.session, hostConnected);
      var admitted := DecidePassword(call, accepted, host, now);
      if admitted {
        JoinAs(sessions, c.session, Peer(c.client, VIEWER, c.name), now);
      } else {
        PerformsNone(sessions.limits, sessions.sessions);
      }
    }

    method DecideAnswer(call: nat, approved: bool, now: int)
      requires Valid() && Enabled(State(), Answered(call, approved, now))
      modifies this
      ensures Valid() && State() == Apply(limits, old(State()), Answered(call, approved, now))
    {
      var c := calls[call].call;
      steps := steps + 1;
      calls := calls - {call};
      if approved {
        recentApprovedViewers := recentApprovedViewers[Key(c.address, c.session) := now + limits.approvalTtlMs];
      }
    }

    method HostAnswered(call: nat, approved: bool, now: int)
      requires Valid() && Enabled(State(), Answered(call, approved, now)) && Sound(sessions.limits, sessions.sessions)
      modifies this, sessions
      ensures Valid() && State() == Apply(limits, old(State()), Answered(call, approved, now))
      ensures Performs(sessions.limits, old(sessions.sessions),
                       RegistryOps(limits, old(State()), Answered(call, approved, now)), sessions.sessions)
    {
      var c := calls[call].call;
      DecideAnswer(call, approved, now);
      if approved {
        JoinAs(sessions, c.session, Peer(c.client, VIEWER, c.name), now);
      } else {
        PerformsNone(sessions.limits, sessions.sessions);
      }
    }

    // The periodic clean-up.
    method TimerFired(now: int)
      requires Valid()
      modifies this, sessions
      ensures Valid() && State() == Apply(limits, old(State()), Timer(now))
      ensures Performs(sessions.limits, old(sessions.sessions), RegistryOps(limits, old(State()), Timer(now)), sessions.sessions)
    {
      steps := steps + 1;
      ExpirePeers(sessions, now);
      CleanupExpiredApprovals(now);
    }

    method CleanupExpiredApprovals(now: int)
      modifies this
      ensures recentApprovedViewers == Unexpired(old(recentApprovedViewers), now)
      ensures calls == old(calls) && steps == old(steps)
    {
      var all := recentApprovedViewers;
      var rest := all.Keys;
      while rest != {}
        invariant rest <= all.Keys
        invariant recentApprovedViewers == map key | key in all && (key in rest || all[key] > now) :: all[key]
        invariant calls == old(calls) && steps == old(steps)
        decreases |rest|
      {
        var key :| key in rest;
        if all[key] <= now {
          recentApprovedViewers := recentApprovedViewers - {key};
        }
        rest := rest - {key};
      }
    }

    method Disconnect(client: string, now: int)
      requires Valid()
      modifies this, sessions
      ensures Valid() && State() == Apply(limits, old(State()), Disconnected(client, now))
      ensures Performs(sessions.limits, old(sessions.sessions),
                       RegistryOps(limits, old(State()), Disconnected(client, now)), sessions.sessions)
    {
      steps := steps + 1;
      var removed := sessions.RemovePeer(client);
      assert RemoveStep(old(sessions.sessions), client, sessions.sessions);
      PerformsOne(sessions.limits, old(sessions.sessions), Remove(client), sessions.sessions);
    }

    method Heartbeat(session: string, client: string, now: int)
      requires Valid()
      modifies this, sessions
      ensures Valid() && State() == Apply(limits, old(State()), Heard(session, client, now))
      ensures Performs(sessions.limits, old(sessions.sessions),
                       RegistryOps(limits, old(State()), Heard(session, client, now)), sessions.sessions)
    {
      steps := steps + 1;
      var known := sessions.TouchPeer(session, client, now);
      PerformsOne(sessions.limits, old(sessions.sessions), Touch(session, client, now), sessions.sessions);
    }
  }
}
