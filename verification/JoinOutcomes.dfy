// What every step of a join leads to, told from the trace: who is let in and when, who is asked
// about, who is suspended, and who is turned away. The converse of the justification in JoinGate.

module JoinOutcomes {
  import opened Basics
  import opened Sessions
  import opened SessionRuns
  import opened JoinGate
  import opened GateLimiters
  import RateLimit

  // ----- the latest approval in the trace

  // Event c of the trace asked, from this address, to join this session.
  predicate AskedFrom(es: seq<Event>, c: nat, address: string, session: string) {
    c < |es| && es[c].Start? && es[c].address == address && SanitizeSessionId(es[c].rawSession) == Some(session)
  }

  predicate ApprovesAt(es: seq<Event>, address: string, session: string, j: int) {
    0 <= j < |es| && es[j].Answered? && es[j].approved && es[j].call < j && AskedFrom(es, es[j].call, address, session)
  }

  ghost predicate LatestApprovalAt(es: seq<Event>, address: string, session: string, t: int, j: int) {
    ApprovesAt(es, address, session, j) && es[j].now == t && forall k :: j < k ==> !ApprovesAt(es, address, session, k)
  }

  // The host last approved a viewer from this address for this session at time t.
  ghost predicate LastApproved(es: seq<Event>, address: string, session: string, t: int) {
    exists j :: LatestApprovalAt(es, address, session, t, j)
  }

  // The same, step by step.
  ghost function Approval(es: seq<Event>, address: string, session: string): Option<int>
    decreases |es|
  {
    if es == [] then None
    else if ApprovesAt(es, address, session, |es| - 1) then Some(es[|es| - 1].now)
    else Approval(es[..|es| - 1], address, session)
  }

  lemma EarlierApproval(es: seq<Event>, address: string, session: string, j: int)
    requires es != []
    ensures ApprovesAt(es[..|es| - 1], address, session, j) <==> ApprovesAt(es, address, session, j) && j != |es| - 1
  {
    var front := es[..|es| - 1];
    if 0 <= j < |front| && es[j].Answered? && es[j].call < j {
      assert front[j] == es[j];
      assert front[es[j].call] == es[es[j].call];
    }
  }

  lemma LatestBefore(es: seq<Event>, address: string, session: string, t: int, j: int)
    requires es != [] && !ApprovesAt(es, address, session, |es| - 1)
    ensures LatestApprovalAt(es[..|es| - 1], address, session, t, j) <==> LatestApprovalAt(es, address, session, t, j)
  {
    var front := es[..|es| - 1];
    EarlierApproval(es, address, session, j);
    if 0 <= j < |front| {
      assert front[j] == es[j];
    }
    forall k
      ensures ApprovesAt(front, address, session, k) <==> ApprovesAt(es, address, session, k)
    {
      EarlierApproval(es, address, session, k);
    }
    assert (forall k :: j < k ==> !ApprovesAt(front, address, session, k))
        <==> (forall k :: j < k ==> !ApprovesAt(es, address, session, k));
  }

  lemma {:induction false} ApprovalIs(es: seq<Event>, address: string, session: string, t: int)
    ensures Approval(es, address, session) == Some(t) <==> LastApproved(es, address, session, t)
    decreases |es|
  {
    if es != [] {
      var last := |es| - 1;
      if ApprovesAt(es, address, session, last) {
        assert LatestApprovalAt(es, address, session, es[last].now, last);
        assert forall j :: LatestApprovalAt(es, address, session, t, j) ==> j >= last;
      } else {
        ApprovalIs(es[..last], address, session, t);
        forall j
          ensures LatestApprovalAt(es[..last], address, session, t, j) <==> LatestApprovalAt(es, address, session, t, j)
        {
          LatestBefore(es, address, session, t, j);
        }
      }
    }
  }

  // An approval counts for the time to live (and never if that ends at the epoch itself, whose
  // timestamp reads as no entry).
  predicate Fresh(l: GateLimits, latest: Option<int>, now: int) {
    latest.Some? && now < latest.value + l.approvalTtlMs && latest.value + l.approvalTtlMs != 0
  }

  // ----- the cache is the latest approval

  predicate CacheTracks(l: GateLimits, approvals: map<string, int>, key: string, latest: Option<int>, end: int) {
    if key in approvals then latest == Some(approvals[key] - l.approvalTtlMs)
    else latest.Some? ==> latest.value + l.approvalTtlMs <= end
  }

  lemma TrackedIsFresh(l: GateLimits, approvals: map<string, int>, key: string, latest: Option<int>, end: int, now: int)
    requires CacheTracks(l, approvals, key, latest, end) && end <= now
    ensures RecentlyApproved(approvals, key, now) <==> Fresh(l, latest, now)
  {
  }

  // What one event does to the latest approval.
  predicate ApprovesNow(es: seq<Event>, e: Event, address: string, session: string) {
    e.Answered? && e.approved && AskedFrom(es, e.call, address, session)
  }

  lemma CacheStep(l: GateLimits, g: Gate, e: Event, key: string, latest: Option<int>, end: int, approves: bool)
    requires Enabled(g, e) && CacheTracks(l, g.approvals, key, latest, end) && end <= e.now
    requires approves <==> e.Answered? && e.approved && KeyOf(g.calls[e.call].call) == key
    ensures CacheTracks(l, Apply(l, g, e).approvals, key, if approves then Some(e.now) else latest, e.now)
  {
  }

  // The call an event works on was asked for in the trace, and its key tells where from.
  lemma KeyTellsOrigin(l: GateLimits, es: seq<Event>, c: nat, address: string, session: string)
    requires Possible(l, es) && c in After(l, es).calls && ':' !in session
    ensures KeyOf(After(l, es).calls[c].call) == Key(address, session) <==> AskedFrom(es, c, address, session)
  {
    AlwaysKnown(l, es);
    var call := After(l, es).calls[c].call;
    assert CallKnown(es, c, After(l, es).calls[c]);
    SessionHasNoColon(es[c].rawSession, call.session);
    if KeyOf(call) == Key(address, session) {
      KeyInjective(call.address, call.session, address, session);
    }
  }

  lemma ApprovalStep(es: seq<Event>, e: Event, address: string, session: string, next: seq<Event>)
    requires next == es + [e]
    ensures Approval(next, address, session)
            == if ApprovesNow(es, e, address, session) then Some(e.now) else Approval(es, address, session)
  {
    assert next[..|next| - 1] == es;
  }

  ghost function Clock(es: seq<Event>): int { if es == [] then 0 else es[|es| - 1].now }

  lemma {:induction false} CacheIsLatest(l: GateLimits, es: seq<Event>, address: string, session: string)
    requires Possible(l, es) && ClockRuns(es) && ':' !in session
    ensures CacheTracks(l, After(l, es).approvals, Key(address, session), Approval(es, address, session), Clock(es))
    decreases |es|
  {
    if es != [] {
      var before, last := es[..|es| - 1], es[|es| - 1];
      CacheIsLatest(l, before, address, session);
      CacheEvent(l, before, last, address, session, es);
    }
  }

  lemma CacheEvent(l: GateLimits, es: seq<Event>, e: Event, address: string, session: string, next: seq<Event>)
    requires Possible(l, es) && Enabled(After(l, es), e) && next == es + [e] && ':' !in session
    requires es != [] ==> es[|es| - 1].now <= e.now
    requires CacheTracks(l, After(l, es).approvals, Key(address, session), Approval(es, address, session), Clock(es))
    ensures CacheTracks(l, Apply(l, After(l, es), e).approvals, Key(address, session), Approval(next, address, session), e.now)
  {
    ApprovalStep(es, e, address, session, next);
    if e.Answered? {
      KeyTellsOrigin(l, es, e.call, address, session);
    }
    if es == [] {
      assert Approval(es, address, session) == None;
      CacheStep(l, After(l, es), e, Key(address, session), None, e.now, ApprovesNow(es, e, address, session));
    } else {
      CacheStep(l, After(l, es), e, Key(address, session), Approval(es, address, session), Clock(es),
                ApprovesNow(es, e, address, session));
    }
  }

  // ----- what was read of the settings

  predicate ReadsAt(es: seq<Event>, c: nat, j: int) { 0 <= j < |es| && es[j].SettingsRead? && es[j].call == c }

  ghost predicate NotRead(es: seq<Event>, c: nat) { forall j :: !ReadsAt(es, c, j) }

  ghost predicate ReadAs(es: seq<Event>, c: nat, required: bool) {
    forall j :: ReadsAt(es, c, j) ==> Required(es[j].requireApproval) == required
  }

  ghost predicate ReadingKnown(es: seq<Event>, c: nat, f: InFlight) {
    match f.phase
    case AwaitSettings => NotRead(es, c)
    case AwaitPassword(required) => ReadAs(es, c, required)
    case AwaitApproval => true
  }

  lemma ReadsBefore(es: seq<Event>, e: Event, c: nat, next: seq<Event>)
    requires next == es + [e]
    ensures forall j :: ReadsAt(next, c, j) <==> ReadsAt(es, c, j) || (j == |es| && e.SettingsRead? && e.call == c)
    ensures forall j :: ReadsAt(es, c, j) ==> next[j] == es[j]
  {
  }

  lemma ReadingStep(l: GateLimits, es: seq<Event>, g: Gate, e: Event, c: nat, next: seq<Event>)
    requires Enabled(g, e) && c in Apply(l, g, e).calls && next == es + [e] && g.steps == |es|
    requires c in g.calls ==> ReadingKnown(es, c, g.calls[c])
    requires c == |es| ==> NotRead(es, c) && c !in g.calls
    ensures ReadingKnown(next, c, Apply(l, g, e).calls[c])
  {
    CallAfter(l, g, e, c);
    ReadsBefore(es, e, c, next);
    if e.SettingsRead? && e.call == c {
      assert g.calls[c].phase.AwaitSettings?;
    }
  }

  // Settings are read only for calls that were started before.
  lemma {:induction false} ReadingsAreLater(l: GateLimits, es: seq<Event>, c: nat, j: int)
    requires Possible(l, es) && ReadsAt(es, c, j)
    ensures c < j
    decreases |es|
  {
    var before, last := es[..|es| - 1], es[|es| - 1];
    if j < |es| - 1 {
      ReadingsAreLater(l, before, c, j);
    } else {
      AlwaysKnown(l, before);
      assert CallKnown(before, c, After(l, before).calls[c]);
    }
  }

  lemma NextIsNotRead(l: GateLimits, es: seq<Event>)
    requires Possible(l, es)
    ensures NotRead(es, |es|)
  {
    forall j | 0 <= j < |es|
      ensures !ReadsAt(es, |es|, j)
    {
      if ReadsAt(es, |es|, j) {
        ReadingsAreLater(l, es, |es|, j);
      }
    }
  }

  lemma ReadingEvent(l: GateLimits, es: seq<Event>, e: Event, c: nat, next: seq<Event>)
    requires Possible(l, es) && Enabled(After(l, es), e) && next == es + [e] && c in Apply(l, After(l, es), e).calls
    requires c in After(l, es).calls ==> ReadingKnown(es, c, After(l, es).calls[c])
    ensures ReadingKnown(next, c, Apply(l, After(l, es), e).calls[c])
  {
    AlwaysKnown(l, es);
    NextCallIsNew(l, es);
    NextIsNotRead(l, es);
    ReadingStep(l, es, After(l, es), e, c, next);
  }

  lemma {:induction false} ReadingsAreKnown(l: GateLimits, es: seq<Event>, c: nat)
    requires Possible(l, es) && c in After(l, es).calls
    ensures ReadingKnown(es, c, After(l, es).calls[c])
    decreases |es|
  {
    if es != [] {
      var before, last := es[..|es| - 1], es[|es| - 1];
      if c in After(l, before).calls {
        ReadingsAreKnown(l, before, c);
      }
      ReadingEvent(l, before, last, c, es);
    }
  }

  lemma RequirementIsRead(l: GateLimits, es: seq<Event>, c: nat)
    requires Possible(l, es) && c in After(l, es).calls && After(l, es).calls[c].phase.AwaitPassword?
    ensures After(l, es).calls[c].phase.approvalRequired <==> !RequirementRead(es, c, false)
  {
    AlwaysKnown(l, es);
    ReadingsAreKnown(l, es, c);
    assert CallKnown(es, c, After(l, es).calls[c]);
    if RequirementRead(es, c, false) {
      var j :| 0 <= j < |es| && es[j].SettingsRead? && es[j].call == c && Required(es[j].requireApproval) == false;
      assert ReadsAt(es, c, j);
    }
  }

  // ----- what is needed to go on after an accepted password

  // No approval was required in this call, or the host's latest approval of a viewer from the same
  // address for the same session is still fresh.
  ghost predicate NeedsNobody(l: GateLimits, es: seq<Event>, c: nat, call: Call, now: int) {
    RequirementRead(es, c, false) || exists t :: LastApproved(es, call.address, call.session, t) && Fresh(l, Some(t), now)
  }

  lemma NeedsNobodyIs(l: GateLimits, es: seq<Event>, c: nat, call: Call, now: int)
    requires Possible(l, es) && ClockRuns(es) && NotAfter(es, now) && Requested(es, c, call)
    requires c in After(l, es).calls && After(l, es).calls[c].phase.AwaitPassword?
    ensures NeedsNobody(l, es, c, call, now)
            <==> !After(l, es).calls[c].phase.approvalRequired || RecentlyApproved(After(l, es).approvals, KeyOf(call), now)
  {
    RequirementIsRead(l, es, c);
    FreshIs(l, es, call, now, es[c].rawSession);
  }

  lemma FreshIs(l: GateLimits, es: seq<Event>, call: Call, now: int, raw: string)
    requires Possible(l, es) && ClockRuns(es) && NotAfter(es, now) && SanitizeSessionId(raw) == Some(call.session) && es != []
    ensures (exists t :: LastApproved(es, call.address, call.session, t) && Fresh(l, Some(t), now))
            <==> RecentlyApproved(After(l, es).approvals, KeyOf(call), now)
  {
    var latest := Approval(es, call.address, call.session);
    SessionHasNoColon(raw, call.session);
    CacheIsLatest(l, es, call.address, call.session);
    TrackedIsFresh(l, After(l, es).approvals, KeyOf(call), latest, Clock(es), now);
    if latest.Some? {
      ApprovalIs(es, call.address, call.session, latest.value);
    }
    forall t | LastApproved(es, call.address, call.session, t)
      ensures latest == Some(t)
    {
      ApprovalIs(es, call.address, call.session, t);
    }
  }

  // ----- outcomes

  // The call is over.
  predicate Over(g: Gate, z: Gate, c: nat) { z.calls == g.calls - {c} }

  // The join of the call is performed.
  ghost predicate LetsIn(ops: seq<Op>, call: Call, now: int) {
    ops == [Join(call.session, Peer(call.client, VIEWER, call.name), now)]
  }

  // The limiter of approval requests has room for this address and session.
  ghost predicate MayAsk(l: GateLimits, es: seq<Event>, call: Call, now: int)
    requires Possible(l, es)
  {
    RateLimit.InWindow(l.approval, RateLimit.History(l.approval, ApprovalCalls(l, es), KeyOf(call)), now) < l.approval.maxEvents
  }

  lemma MayAskIs(l: GateLimits, es: seq<Event>, call: Call, now: int)
    requires Possible(l, es) && ClockRuns(es) && NotAfter(es, now)
    ensures RateLimit.Step(l.approval, After(l, es).approvalRequests, RateLimit.Consume(KeyOf(call), now)).1
            <==> MayAsk(l, es, call, now)
  {
    ApprovalLimiterRuns(l, es);
    ApprovalCallsAscend(l, es, now);
    RateLimit.AcceptedExactlyBelowLimit(l.approval, ApprovalCalls(l, es), KeyOf(call), now);
  }

  lemma CallOf(l: GateLimits, es: seq<Event>, c: nat, call: Call)
    requires Possible(l, es) && c in After(l, es).calls && Requested(es, c, call)
    ensures After(l, es).calls[c].call == call
  {
    AlwaysKnown(l, es);
    assert CallKnown(es, c, After(l, es).calls[c]);
  }

  lemma AcceptedStep(l: GateLimits, g: Gate, e: Event, needsNobody: bool, mayAsk: bool, call: Call)
    requires Enabled(g, e) && e.Verified? && e.accepted && g.calls[e.call].call == call
    requires needsNobody <==> !g.calls[e.call].phase.approvalRequired || RecentlyApproved(g.approvals, KeyOf(call), e.now)
    requires RateLimit.Step(l.approval, g.approvalRequests, RateLimit.Consume(KeyOf(call), e.now)).1 <==> mayAsk
    ensures var z, ops := Apply(l, g, e), RegistryOps(l, g, e);
      if needsNobody then LetsIn(ops, call, e.now) && Over(g, z, e.call)
      else ops == [] && if mayAsk && e.host.Some? then z.calls == g.calls[e.call := InFlight(call, AwaitApproval)]
                        else Over(g, z, e.call)
  {
  }

  /** An accepted password: the viewer is let in at once exactly if nobody needs to be asked; else the
      host is asked exactly if it is there and the limiter has room; else the call is over. */
  lemma AcceptedOutcome(l: GateLimits, es: seq<Event>, e: Event, call: Call)
    requires Possible(l, es) && ClockRuns(es) && NotAfter(es, e.now) && Enabled(After(l, es), e)
    requires e.Verified? && e.accepted && Requested(es, e.call, call)
    ensures var g, z, ops := After(l, es), Apply(l, After(l, es), e), RegistryOps(l, After(l, es), e);
      if NeedsNobody(l, es, e.call, call, e.now) then LetsIn(ops, call, e.now) && Over(g, z, e.call)
      else ops == [] && if MayAsk(l, es, call, e.now) && e.host.Some?
                        then z.calls == g.calls[e.call := InFlight(call, AwaitApproval)] else Over(g, z, e.call)
  {
    CallOf(l, es, e.call, call);
    NeedsNobodyIs(l, es, e.call, call, e.now);
    MayAskIs(l, es, call, e.now);
    AcceptedStep(l, After(l, es), e, NeedsNobody(l, es, e.call, call, e.now), MayAsk(l, es, call, e.now), call);
  }

  /** A refused password ends the call, and so does the host's answer, which lets the viewer in exactly
      if it is an approval. */
  lemma EndedOutcome(l: GateLimits, es: seq<Event>, e: Event, call: Call)
    requires Possible(l, es) && Enabled(After(l, es), e)
    requires (e.Verified? && !e.accepted) || e.Answered?
    requires Requested(es, e.call, call)
    ensures var g := After(l, es);
      Over(g, Apply(l, g, e), e.call)
      && if e.Answered? && e.approved then LetsIn(RegistryOps(l, g, e), call, e.now) else RegistryOps(l, g, e) == []
  {
    CallOf(l, es, e.call, call);
  }

  // The failures of the key leave room in the window.
  ghost predicate MayTry(l: GateLimits, es: seq<Event>, call: Call, now: int)
    requires Possible(l, es)
  {
    RateLimit.InWindow(l.password, Failures(l, es, KeyOf(call)), now) < l.password.maxEvents
  }

  lemma MayTryIs(l: GateLimits, es: seq<Event>, call: Call, now: int)
    requires Possible(l, es) && ClockRuns(es) && NotAfter(es, now)
    ensures RateLimit.Allowed(l.password, After(l, es).passwordAttempts, KeyOf(call), now) <==> MayTry(l, es, call, now)
  {
    RoomIsFor(l, es, KeyOf(call), now, After(l, es).passwordAttempts, Failures(l, es, KeyOf(call)));
  }

  lemma RoomIsFor(l: GateLimits, es: seq<Event>, key: string, now: int, attempts: RateLimit.Events, failures: seq<int>)
    requires Possible(l, es) && ClockRuns(es) && NotAfter(es, now)
    requires attempts == After(l, es).passwordAttempts && failures == Failures(l, es, key)
    ensures RateLimit.Allowed(l.password, attempts, key, now)
            <==> RateLimit.InWindow(l.password, failures, now) < l.password.maxEvents
  {
    TableIsFailures(l, es, key, now);
    FailuresArePast(l, es, key, now);
    RoomIs(l.password, attempts, key, now, failures);
  }

  lemma RoomIs(limits: RateLimit.Limits, attempts: RateLimit.Events, key: string, now: int, times: seq<int>)
    requires RateLimit.Before(times, now)
    requires RateLimit.Active(limits, attempts, key, now) == RateLimit.Since(times, now - limits.windowMs)
    ensures RateLimit.Allowed(limits, attempts, key, now) <==> RateLimit.InWindow(limits, times, now) < limits.maxEvents
  {
    RateLimit.WindowIsSince(limits, times, now);
  }

  /** Once the settings are read, the password is checked exactly if the failures of the key since its
      last success leave room; approval is required unless the settings say no. */
  lemma SettingsOutcome(l: GateLimits, es: seq<Event>, e: Event, call: Call)
    requires Possible(l, es) && ClockRuns(es) && NotAfter(es, e.now) && Enabled(After(l, es), e)
    requires e.SettingsRead? && Requested(es, e.call, call)
    ensures var g := After(l, es);
      RegistryOps(l, g, e) == []
      && if MayTry(l, es, call, e.now)
         then Apply(l, g, e).calls == g.calls[e.call := InFlight(call, AwaitPassword(e.requireApproval != Some(false)))]
         else Over(g, Apply(l, g, e), e.call)
  {
    CallOf(l, es, e.call, call);
    MayTryIs(l, es, call, e.now);
  }

  // The joins counted for the address leave room in the window.
  ghost predicate MayJoin(l: GateLimits, es: seq<Event>, address: string, now: int) {
    RateLimit.InWindow(l.join, RateLimit.History(l.join, JoinCalls(es), address), now) < l.join.maxEvents
  }

  lemma MayJoinIs(l: GateLimits, es: seq<Event>, address: string, now: int)
    requires Possible(l, es) && ClockRuns(es) && NotAfter(es, now)
    ensures RateLimit.Allowed(l.join, After(l, es).joinAttempts, address, now) <==> MayJoin(l, es, address, now)
  {
    JoinLimiterRuns(l, es);
    JoinCallsAscend(es, now);
    RateLimit.AcceptedExactlyBelowLimit(l.join, JoinCalls(es), address, now);
  }

  lemma StartedStep(l: GateLimits, g: Gate, e: Event, mayJoin: bool)
    requires e.Start? && (RateLimit.Allowed(l.join, g.joinAttempts, e.address, e.now) <==> mayJoin)
    ensures var z, ops, session := Apply(l, g, e), RegistryOps(l, g, e), Trim(e.rawSession);
      if e.role.None? || !IsToken(session, 64) then ops == [] && z.calls == g.calls
      else if !mayJoin then ops == [Sweep(e.now)] && z.calls == g.calls
      else if e.role == Some(HOST)
      then ops == [Sweep(e.now), Join(session, Peer(e.client, HOST, e.name), e.now)] && z.calls == g.calls
      else ops == [Sweep(e.now)]
           && z.calls == g.calls[g.steps := InFlight(Call(e.client, e.address, session, e.name), AwaitSettings)]
  {
    assert Valid(e) <==> e.role.Some? && IsToken(Trim(e.rawSession), 64);
    if Valid(e) {
      assert StartedCall(e) == Call(e.client, e.address, Trim(e.rawSession), e.name);
      assert e.role.value.HOST? || e.role.value.VIEWER?;
      assert JoinAllowed(l, g, e) == mayJoin;
    }
  }

  /** A new join: an invalid one does nothing; a valid one sweeps expired peers first. If its address has
      room, a host is let in at once and a viewer's call waits for the settings. */
  lemma StartOutcome(l: GateLimits, es: seq<Event>, e: Event)
    requires Possible(l, es) && ClockRuns(es) && NotAfter(es, e.now) && e.Start?
    ensures var g, z, ops, session := After(l, es), Apply(l, After(l, es), e), RegistryOps(l, After(l, es), e), Trim(e.rawSession);
      if e.role.None? || !IsToken(session, 64) then ops == [] && z.calls == g.calls
      else if !MayJoin(l, es, e.address, e.now) then ops == [Sweep(e.now)] && z.calls == g.calls
      else if e.role == Some(HOST)
      then ops == [Sweep(e.now), Join(session, Peer(e.client, HOST, e.name), e.now)] && z.calls == g.calls
      else ops == [Sweep(e.now)]
           && z.calls == g.calls[|es| := InFlight(Call(e.client, e.address, session, e.name), AwaitSettings)]
  {
    MayJoinIs(l, es, e.address, e.now);
    AlwaysKnown(l, es);
    StartedStep(l, After(l, es), e, MayJoin(l, es, e.address, e.now));
  }

  /** The rest: the timer sweeps, a heartbeat touches, a disconnected client is removed; no call moves. */
  lemma OtherOutcome(l: GateLimits, es: seq<Event>, e: Event)
    requires Possible(l, es) && (e.Timer? || e.Heard? || e.Disconnected?)
    ensures Apply(l, After(l, es), e).calls == After(l, es).calls
    ensures RegistryOps(l, After(l, es), e)
            == match e
               case Timer(now) => [Sweep(now)]
               case Heard(session, client, now) => [Touch(session, client, now)]
               case Disconnected(client, _) => [Remove(client)]
  {
  }

  /** The timer forgets exactly the expired approvals; and an accepted password that needs one leaves no
      expired approval of its address and session. */
  lemma ExpiredAreForgotten(l: GateLimits, g: Gate, e: Event)
    requires Enabled(g, e)
    ensures e.Timer? ==>
      forall key :: key in Apply(l, g, e).approvals <==> key in g.approvals && e.now < g.approvals[key]
    ensures e.Verified? && e.accepted && g.calls[e.call].phase.approvalRequired ==>
      var key, approvals := KeyOf(g.calls[e.call].call), Apply(l, g, e).approvals;
        key in approvals ==> approvals[key] == g.approvals[key] && (e.now < approvals[key] || approvals[key] == 0)
  {
  }

  /** The step of a viewer's call lets it in if and only if it is an accepted password for which nobody
      needs to be asked, or the host's approval. */
  lemma ViewerIsLetIn(l: GateLimits, es: seq<Event>, e: Event, c: nat, call: Call)
    requires Possible(l, es) && ClockRuns(es) && NotAfter(es, e.now) && Enabled(After(l, es), e)
    requires (e.SettingsRead? || e.Verified? || e.Answered?) && e.call == c && Requested(es, c, call)
    ensures LetsIn(RegistryOps(l, After(l, es), e), call, e.now)
            <==> (e.Verified? && e.accepted && NeedsNobody(l, es, c, call, e.now)) || (e.Answered? && e.approved)
    ensures !LetsIn(RegistryOps(l, After(l, es), e), call, e.now) ==> RegistryOps(l, After(l, es), e) == []
  {
    if e.SettingsRead? {
      SettingsOutcome(l, es, e, call);
    } else if e.Verified? && e.accepted {
      AcceptedOutcome(l, es, e, call);
    } else {
      EndedOutcome(l, es, e, call);
    }
  }
}
