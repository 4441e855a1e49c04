// The gate that viewers pass to join a session: password, host approval, and the cache of recent
// approvals. A join suspends at three awaits (settings, password hash, host's answer), and joins
// of many clients interleave there; the steps below are the code between awaits. From the last
// decision to the registry a join is one step, as SessionRuns.Join is.

module JoinGate {
  import opened Basics
  import RateLimit
  import opened Sessions
  import opened SessionRuns

  datatype GateLimits = GateLimits(join: RateLimit.Limits, password: RateLimit.Limits, approval: RateLimit.Limits,
                                   approvalTtlMs: nat)

  // What a suspended join keeps: who asked, from where, for which session.
  datatype Call = Call(client: string, address: string, session: string, name: Option<string>)

  datatype Phase = AwaitSettings | AwaitPassword(approvalRequired: bool) | AwaitApproval

  datatype InFlight = InFlight(call: Call, phase: Phase)

  // `steps` numbers the events; a call is known by the number of the event that started it.
  datatype Gate = Gate(steps: nat, calls: map<nat, InFlight>, approvals: map<string, int>,
                       joinAttempts: RateLimit.Events, passwordAttempts: RateLimit.Events,
                       approvalRequests: RateLimit.Events)

  const CLOSED := Gate(0, map[], map[], map[], map[], map[])

  datatype Event =
    | Start(client: string, address: string, rawSession: string, role: Option<Role>, name: Option<string>, now: int)
    | SettingsRead(call: nat, requireApproval: Option<bool>, now: int)
    | Verified(call: nat, accepted: bool, host: Option<string>, now: int)
    | Answered(call: nat, approved: bool, now: int)
    | Timer(now: int)
    | Heard(session: string, client: string, now: int)
    | Disconnected(client: string, now: int)

  function SanitizeSessionId(raw: string): Option<string> {
    if IsToken(Trim(raw), 64) then Some(Trim(raw)) else None
  }

  // The key of the approval cache and of the two limiters behind the password.
  function Key(address: string, session: string): string { address + ":" + session }

  function KeyOf(call: Call): string { Key(call.address, call.session) }

  predicate Enabled(g: Gate, e: Event) {
    match e
    case SettingsRead(c, _, _) => c in g.calls && g.calls[c].phase.AwaitSettings?
    case Verified(c, _, _, _) => c in g.calls && g.calls[c].phase.AwaitPassword?
    case Answered(c, _, _) => c in g.calls && g.calls[c].phase.AwaitApproval?
    case _ => true
  }

  function Drop(g: Gate, c: nat): Gate { g.(calls := g.calls - {c}) }

  function Resume(g: Gate, c: nat, phase: Phase): Gate
    requires c in g.calls
  {
    g.(calls := g.calls[c := InFlight(g.calls[c].call, phase)])
  }

  // ----- the steps

  predicate Valid(e: Event)
    requires e.Start?
  {
    SanitizeSessionId(e.rawSession).Some? && e.role.Some?
  }

  predicate JoinAllowed(l: GateLimits, g: Gate, e: Event)
    requires e.Start?
  {
    Valid(e) && RateLimit.Allowed(l.join, g.joinAttempts, e.address, e.now)
  }

  function StartStep(l: GateLimits, g: Gate, e: Event): Gate
    requires e.Start?
  {
    if !Valid(e) then g
    else
      var counted := g.(joinAttempts := RateLimit.Step(l.join, g.joinAttempts, RateLimit.Consume(e.address, e.now)).0);
      if JoinAllowed(l, g, e) && e.role == Some(VIEWER)
      then counted.(calls := g.calls[g.steps := InFlight(StartedCall(e), AwaitSettings)])
      else counted
  }

  function StartedCall(e: Event): Call
    requires e.Start? && Valid(e)
  {
    Call(e.client, e.address, SanitizeSessionId(e.rawSession).value, e.name)
  }

  function Required(requireApproval: Option<bool>): bool { requireApproval != Some(false) }

  function SettingsStep(l: GateLimits, g: Gate, e: Event): Gate
    requires e.SettingsRead? && Enabled(g, e)
  {
    var key := KeyOf(g.calls[e.call].call);
    var pruned := g.(passwordAttempts := RateLimit.Pruned(l.password, g.passwordAttempts, key, e.now));
    if RateLimit.Allowed(l.password, g.passwordAttempts, key, e.now)
    then Resume(pruned, e.call, AwaitPassword(Required(e.requireApproval))) else Drop(pruned, e.call)
  }

  // An entry of the cache counts until it expires (and an expiry of zero never counts).
  predicate RecentlyApproved(approvals: map<string, int>, key: string, now: int) {
    key in approvals && approvals[key] != 0 && approvals[key] > now
  }

  function LookedUp(approvals: map<string, int>, key: string, now: int): map<string, int> {
    if key in approvals && approvals[key] != 0 && approvals[key] <= now then approvals - {key} else approvals
  }

  function VerifiedStep(l: GateLimits, g: Gate, e: Event): Gate
    requires e.Verified? && Enabled(g, e)
  {
    var key := KeyOf(g.calls[e.call].call);
    if !e.accepted then
      Drop(g.(passwordAttempts := RateLimit.Recorded(l.password, g.passwordAttempts, key, e.now)), e.call)
    else
      var reset := g.(passwordAttempts := g.passwordAttempts - {key});
      if !g.calls[e.call].phase.approvalRequired || RecentlyApproved(g.approvals, key, e.now) then Drop(reset, e.call)
      else
        var (requests, allowed) := RateLimit.Step(l.approval, g.approvalRequests, RateLimit.Consume(key, e.now));
        var asked := reset.(approvals := LookedUp(g.approvals, key, e.now), approvalRequests := requests);
        if allowed && e.host.Some? then Resume(asked, e.call, AwaitApproval) else Drop(asked, e.call)
  }

  function AnsweredStep(l: GateLimits, g: Gate, e: Event): Gate
    requires e.Answered? && Enabled(g, e)
  {
    var key := KeyOf(g.calls[e.call].call);
    Drop(if e.approved then g.(approvals := g.approvals[key := e.now + l.approvalTtlMs]) else g, e.call)
  }

  function Unexpired(approvals: map<string, int>, now: int): map<string, int> {
    map key | key in approvals && approvals[key] > now :: approvals[key]
  }

  function Apply(l: GateLimits, g: Gate, e: Event): Gate
    requires Enabled(g, e)
  {
    var z := match e
      case Start(_, _, _, _, _, _) => StartStep(l, g, e)
      case SettingsRead(_, _, _) => SettingsStep(l, g, e)
      case Verified(_, _, _, _) => VerifiedStep(l, g, e)
      case Answered(_, _, _) => AnsweredStep(l, g, e)
      case Timer(now) => g.(approvals := Unexpired(g.approvals, now))
      case Heard(_, _, _) => g
      case Disconnected(_, _) => g;
    z.(steps := g.steps + 1)
  }

  // Whether the step ends with its client let into the registry.
  predicate Admits(l: GateLimits, g: Gate, e: Event)
    requires Enabled(g, e)
  {
    match e
    case Start(_, _, _, role, _, _) => JoinAllowed(l, g, e) && role == Some(HOST)
    case Verified(c, accepted, _, now) =>
      accepted && (!g.calls[c].phase.approvalRequired || RecentlyApproved(g.approvals, KeyOf(g.calls[c].call), now))
    case Answered(_, approved, _) => approved
    case _ => false
  }

  function AdmittedPeer(l: GateLimits, g: Gate, e: Event): (string, Peer)
    requires Enabled(g, e) && Admits(l, g, e)
  {
    if e.Start? then (StartedCall(e).session, Peer(e.client, HOST, e.name))
    else
      var call := g.calls[e.call].call;
      (call.session, Peer(call.client, VIEWER, call.name))
  }

  // What the step does to the registry.
  function RegistryOps(l: GateLimits, g: Gate, e: Event): seq<Op>
    requires Enabled(g, e)
  {
    if Admits(l, g, e) then
      var (session, peer) := AdmittedPeer(l, g, e);
      if e.Start? then [Sweep(e.now), Join(session, peer, e.now)] else [Join(session, peer, e.now)]
    else if e.Timer? || (e.Start? && Valid(e)) then [Sweep(e.now)]
    else if e.Heard? then [Touch(e.session, e.client, e.now)]
    else if e.Disconnected? then [Remove(e.client)]
    else []
  }

  // ----- runs

  ghost predicate Possible(l: GateLimits, es: seq<Event>)
    decreases |es|, 0
  {
    es == [] || (Possible(l, es[..|es| - 1]) && Enabled(After(l, es[..|es| - 1]), es[|es| - 1]))
  }

  ghost function After(l: GateLimits, es: seq<Event>): Gate
    requires Possible(l, es)
    decreases |es|, 1
  {
    if es == [] then CLOSED else Apply(l, After(l, es[..|es| - 1]), es[|es| - 1])
  }

  ghost function OpsOf(l: GateLimits, es: seq<Event>): seq<Op>
    requires Possible(l, es)
    decreases |es|
  {
    if es == [] then []
    else
      var before, last := es[..|es| - 1], es[|es| - 1];
      OpsOf(l, before) + RegistryOps(l, After(l, before), last)
  }

  // ----- what the trace must show

  ghost predicate Requested(es: seq<Event>, c: nat, call: Call) {
    c < |es| && es[c].Start? && es[c].role == Some(VIEWER) && Valid(es[c]) && StartedCall(es[c]) == call
  }

  ghost predicate RequirementRead(es: seq<Event>, c: nat, required: bool) {
    exists j :: 0 <= j < |es| && es[j].SettingsRead? && es[j].call == c && Required(es[j].requireApproval) == required
  }

  ghost predicate PasswordAccepted(es: seq<Event>, c: nat) {
    exists j :: 0 <= j < |es| && es[j].Verified? && es[j].call == c && es[j].accepted
  }

  ghost predicate ApprovedAt(es: seq<Event>, c: nat, t: int) {
    exists j :: 0 <= j < |es| && es[j].Answered? && es[j].call == c && es[j].approved && es[j].now == t
  }

  // The host approved, at time t, a viewer from this address for this session.
  ghost predicate ApprovedFrom(es: seq<Event>, address: string, session: string, t: int) {
    exists c, call :: Requested(es, c, call) && ApprovedAt(es, c, t) && call.address == address && call.session == session
  }

  /** A viewer's join is justified: its password was accepted in this call, and either approval was
      not required, or the host approved in this call, or the host approved a viewer from the same
      address for the same session less than the cache's time to live ago. */
  ghost predicate Justified(l: GateLimits, es: seq<Event>, c: nat, call: Call, now: int) {
    Requested(es, c, call) && PasswordAccepted(es, c)
    && (RequirementRead(es, c, false)
        || ApprovedAt(es, c, now)
        || exists t :: ApprovedFrom(es, call.address, call.session, t) && now < t + l.approvalTtlMs)
  }

  // ----- the invariant

  ghost predicate CallKnown(es: seq<Event>, c: nat, f: InFlight) {
    Requested(es, c, f.call)
    && match f.phase
       case AwaitSettings => true
       case AwaitPassword(required) => RequirementRead(es, c, required)
       case AwaitApproval => PasswordAccepted(es, c)
  }

  ghost predicate CallsKnown(es: seq<Event>, g: Gate) { forall c :: c in g.calls ==> CallKnown(es, c, g.calls[c]) }

  ghost predicate ApprovalKnown(l: GateLimits, es: seq<Event>, key: string, expires: int) {
    exists c, call :: Requested(es, c, call) && ApprovedAt(es, c, expires - l.approvalTtlMs) && key == KeyOf(call)
  }

  ghost predicate ApprovalsKnown(l: GateLimits, es: seq<Event>, approvals: map<string, int>) {
    forall key :: key in approvals ==> ApprovalKnown(l, es, key, approvals[key])
  }

  // ----- keys

  lemma SessionHasNoColon(raw: string, session: string)
    requires SanitizeSessionId(raw) == Some(session)
    ensures ':' !in session
  {
    assert forall i :: 0 <= i < |session| ==> IsTokenChar(session[i]);
  }

  /** The key tells the address and the session apart, whatever colons the address contains. */
  lemma KeyInjective(a: string, s: string, b: string, t: string)
    requires Key(a, s) == Key(b, t) && ':' !in s && ':' !in t
    ensures a == b && s == t
  {
    var key := Key(a, s);
    assert key[|a|] == ':' && key[|b|] == ':';
    assert forall i :: |a| < i < |key| ==> key[i] == s[i - |a| - 1];
    assert forall i :: |b| < i < |key| ==> key[i] == t[i - |b| - 1];
    assert |a| == |b|;
    assert a == Key(a, s)[..|a|] && b == Key(b, t)[..|b|];
    assert s == Key(a, s)[|a| + 1..] && t == Key(b, t)[|b| + 1..];
  }

  // ----- what is known stays known

  lemma RequestedGrows(es: seq<Event>, e: Event, c: nat, call: Call)
    requires Requested(es, c, call)
    ensures Requested(es + [e], c, call)
  {
    assert (es + [e])[c] == es[c];
  }

  lemma ReadGrows(es: seq<Event>, e: Event, c: nat, required: bool)
    requires RequirementRead(es, c, required)
    ensures RequirementRead(es + [e], c, required)
  {
    var j :| 0 <= j < |es| && es[j].SettingsRead? && es[j].call == c && Required(es[j].requireApproval) == required;
    assert (es + [e])[j] == es[j];
  }

  lemma AcceptedGrows(es: seq<Event>, e: Event, c: nat)
    requires PasswordAccepted(es, c)
    ensures PasswordAccepted(es + [e], c)
  {
    var j :| 0 <= j < |es| && es[j].Verified? && es[j].call == c && es[j].accepted;
    assert (es + [e])[j] == es[j];
  }

  lemma ApprovedGrows(es: seq<Event>, e: Event, c: nat, t: int)
    requires ApprovedAt(es, c, t)
    ensures ApprovedAt(es + [e], c, t)
  {
    var j :| 0 <= j < |es| && es[j].Answered? && es[j].call == c && es[j].approved && es[j].now == t;
    assert (es + [e])[j] == es[j];
  }

  lemma CallKnownGrows(es: seq<Event>, e: Event, c: nat, f: InFlight)
    requires CallKnown(es, c, f)
    ensures CallKnown(es + [e], c, f)
  {
    RequestedGrows(es, e, c, f.call);
    if f.phase.AwaitPassword? {
      ReadGrows(es, e, c, f.phase.approvalRequired);
    } else if f.phase.AwaitApproval? {
      AcceptedGrows(es, e, c);
    }
  }

  lemma ApprovalKnownGrows(l: GateLimits, es: seq<Event>, e: Event, key: string, expires: int)
    requires ApprovalKnown(l, es, key, expires)
    ensures ApprovalKnown(l, es + [e], key, expires)
  {
    var c: nat, call :| Requested(es, c, call) && ApprovedAt(es, c, expires - l.approvalTtlMs) && key == KeyOf(call);
    RequestedGrows(es, e, c, call);
    ApprovedGrows(es, e, c, expires - l.approvalTtlMs);
  }

  // ----- every step keeps the invariant

  // A step starts one call or moves one call to its next phase.
  predicate Started(g: Gate, e: Event, c: nat, f: InFlight) {
    e.Start? && Valid(e) && e.role == Some(VIEWER) && c == g.steps && f == InFlight(StartedCall(e), AwaitSettings)
  }

  predicate Moved(g: Gate, e: Event, c: nat, f: InFlight) {
    c in g.calls && f.call == g.calls[c].call
    && ((e.SettingsRead? && e.call == c && f.phase == AwaitPassword(Required(e.requireApproval)))
        || (e.Verified? && e.call == c && e.accepted && f.phase == AwaitApproval))
  }

  lemma CallAfter(l: GateLimits, g: Gate, e: Event, c: nat)
    requires Enabled(g, e) && c in Apply(l, g, e).calls
    ensures var f := Apply(l, g, e).calls[c];
      (c in g.calls && f == g.calls[c]) || Started(g, e, c, f) || Moved(g, e, c, f)
  {
  }

  lemma ApprovalAfter(l: GateLimits, g: Gate, e: Event, key: string)
    requires Enabled(g, e) && key in Apply(l, g, e).approvals
    ensures var expires := Apply(l, g, e).approvals[key];
      (key in g.approvals && expires == g.approvals[key])
      || (e.Answered? && e.approved && key == KeyOf(g.calls[e.call].call) && expires == e.now + l.approvalTtlMs)
  {
  }

  lemma StartedIsKnown(es: seq<Event>, g: Gate, e: Event, c: nat, f: InFlight)
    requires g.steps == |es| && Started(g, e, c, f)
    ensures CallKnown(es + [e], c, f)
  {
    assert (es + [e])[|es|] == e;
  }

  lemma MovedIsKnown(es: seq<Event>, g: Gate, e: Event, c: nat, f: InFlight)
    requires Moved(g, e, c, f) && Requested(es, c, f.call)
    ensures CallKnown(es + [e], c, f)
  {
    RequestedGrows(es, e, c, f.call);
    assert (es + [e])[|es|] == e;
  }

  lemma StepKeepsCall(l: GateLimits, es: seq<Event>, g: Gate, e: Event, c: nat)
    requires Enabled(g, e) && CallsKnown(es, g) && g.steps == |es| && c in Apply(l, g, e).calls
    ensures CallKnown(es + [e], c, Apply(l, g, e).calls[c])
  {
    var f := Apply(l, g, e).calls[c];
    CallAfter(l, g, e, c);
    if Started(g, e, c, f) {
      StartedIsKnown(es, g, e, c, f);
    } else if Moved(g, e, c, f) {
      assert CallKnown(es, c, g.calls[c]);
      MovedIsKnown(es, g, e, c, f);
    } else {
      CallKnownGrows(es, e, c, f);
    }
  }

  lemma AnswerIsKnown(l: GateLimits, es: seq<Event>, e: Event, call: Call)
    requires e.Answered? && e.approved && Requested(es, e.call, call)
    ensures ApprovalKnown(l, es + [e], KeyOf(call), e.now + l.approvalTtlMs)
  {
    RequestedGrows(es, e, e.call, call);
    assert (es + [e])[|es|] == e;
    assert ApprovedAt(es + [e], e.call, e.now);
  }

  lemma StepKeepsApproval(l: GateLimits, es: seq<Event>, g: Gate, e: Event, key: string)
    requires Enabled(g, e) && CallsKnown(es, g) && ApprovalsKnown(l, es, g.approvals)
    requires key in Apply(l, g, e).approvals
    ensures ApprovalKnown(l, es + [e], key, Apply(l, g, e).approvals[key])
  {
    ApprovalAfter(l, g, e, key);
    var expires := Apply(l, g, e).approvals[key];
    if key in g.approvals && expires == g.approvals[key] {
      ApprovalKnownGrows(l, es, e, key, expires);
    } else {
      assert CallKnown(es, e.call, g.calls[e.call]);
      AnswerIsKnown(l, es, e, g.calls[e.call].call);
    }
  }

  lemma {:induction false} AlwaysKnown(l: GateLimits, es: seq<Event>)
    requires Possible(l, es)
    ensures After(l, es).steps == |es| && CallsKnown(es, After(l, es)) && ApprovalsKnown(l, es, After(l, es).approvals)
    decreases |es|
  {
    if es != [] {
      var before, last := es[..|es| - 1], es[|es| - 1];
      var g := After(l, before);
      AlwaysKnown(l, before);
      assert es == before + [last];
      forall c | c in After(l, es).calls ensures CallKnown(es, c, After(l, es).calls[c]) {
        StepKeepsCall(l, before, g, last, c);
      }
      forall key | key in After(l, es).approvals ensures ApprovalKnown(l, es, key, After(l, es).approvals[key]) {
        StepKeepsApproval(l, before, g, last, key);
      }
    }
  }

  // ----- the gate

  lemma SameOrigin(es: seq<Event>, c: nat, call: Call, d: nat, other: Call)
    requires Requested(es, c, call) && Requested(es, d, other) && KeyOf(call) == KeyOf(other)
    ensures call.address == other.address && call.session == other.session
  {
    SessionHasNoColon(es[c].rawSession, call.session);
    SessionHasNoColon(es[d].rawSession, other.session);
    KeyInjective(call.address, call.session, other.address, other.session);
  }

  lemma CachedApprovalIsApproval(l: GateLimits, es: seq<Event>, g: Gate, e: Event, c: nat, call: Call, now: int)
    requires Requested(es, c, call) && ApprovalsKnown(l, es, g.approvals) && RecentlyApproved(g.approvals, KeyOf(call), now)
    ensures exists t :: ApprovedFrom(es + [e], call.address, call.session, t) && now < t + l.approvalTtlMs
  {
    var t := g.approvals[KeyOf(call)] - l.approvalTtlMs;
    var d: nat, other :| Requested(es, d, other) && ApprovedAt(es, d, t) && KeyOf(call) == KeyOf(other);
    SameOrigin(es, c, call, d, other);
    RequestedGrows(es, e, d, other);
    ApprovedGrows(es, e, d, t);
    assert ApprovedFrom(es + [e], call.address, call.session, t);
  }

  // The last step of a call finds the rest of its justification in the trace.
  lemma AdmissionIsJustified(l: GateLimits, es: seq<Event>, e: Event)
    requires Possible(l, es) && Enabled(After(l, es), e) && Admits(l, After(l, es), e) && !e.Start?
    ensures Justified(l, es + [e], e.call, After(l, es).calls[e.call].call, e.now)
  {
    var g := After(l, es);
    AlwaysKnown(l, es);
    var c, f := e.call, g.calls[e.call];
    assert CallKnown(es, c, f);
    RequestedGrows(es, e, c, f.call);
    assert (es + [e])[|es|] == e;
    if e.Answered? {
      AcceptedGrows(es, e, c);
      assert ApprovedAt(es + [e], c, e.now);
    } else {
      assert PasswordAccepted(es + [e], c);
      if f.phase.approvalRequired {
        CachedApprovalIsApproval(l, es, g, e, c, f.call, e.now);
      } else {
        ReadGrows(es, e, c, false);
      }
    }
  }

  // ----- from the registry back to the trace

  // The first n events end with the admission of this peer to this session.
  ghost predicate AdmittedBy(l: GateLimits, es: seq<Event>, s: string, p: Peer) {
    es != [] && Possible(l, es)
    && var before, last := es[..|es| - 1], es[|es| - 1];
       Admits(l, After(l, before), last) && AdmittedPeer(l, After(l, before), last) == (s, p)
  }

  lemma {:induction false} JoinIsAdmission(l: GateLimits, es: seq<Event>, op: Op)
    requires Possible(l, es) && op in OpsOf(l, es) && op.Join?
    ensures exists n: nat :: n <= |es| && AdmittedBy(l, es[..n], op.sessionId, op.peer)
    decreases |es|
  {
    assert es != [] by {
      assert OpsOf(l, []) == [];
    }
    var before, last := es[..|es| - 1], es[|es| - 1];
    if op in OpsOf(l, before) {
      JoinIsAdmission(l, before, op);
      var n: nat :| n <= |before| && AdmittedBy(l, before[..n], op.sessionId, op.peer);
      assert before[..n] == es[..n];
    } else {
      LastOpIsAdmission(l, After(l, before), last, op);
      assert es[..|es|] == es;
      assert AdmittedBy(l, es[..|es|], op.sessionId, op.peer);
    }
  }

  lemma LastOpIsAdmission(l: GateLimits, g: Gate, e: Event, op: Op)
    requires Enabled(g, e) && op in RegistryOps(l, g, e) && op.Join?
    ensures Admits(l, g, e) && AdmittedPeer(l, g, e) == (op.sessionId, op.peer)
  {
  }

  lemma {:induction false} OpsAreAtomic(l: GateLimits, es: seq<Event>)
    requires Possible(l, es)
    ensures JoinsAreAtomic(OpsOf(l, es))
    decreases |es|
  {
    if es != [] {
      OpsAreAtomic(l, es[..|es| - 1]);
    }
  }

  // Some prefix of the trace ends with the justified join of this viewer to this session.
  ghost predicate LetIn(l: GateLimits, es: seq<Event>, s: string, p: Peer) {
    exists n: nat, call: nat, asked: Call :: JustifiedAfter(l, es, n, call, asked)
      && asked.session == s && p == Peer(asked.client, VIEWER, asked.name)
  }

  ghost predicate JustifiedAfter(l: GateLimits, es: seq<Event>, n: nat, call: nat, asked: Call) {
    0 < n <= |es| && Justified(l, es[..n], call, asked, es[n - 1].now)
  }

  lemma AdmittedIsLetIn(l: GateLimits, es: seq<Event>, n: nat, s: string, p: Peer)
    requires n <= |es| && AdmittedBy(l, es[..n], s, p) && p.role == VIEWER
    ensures LetIn(l, es, s, p)
  {
    var prefix := es[..n];
    var before, last := prefix[..n - 1], prefix[n - 1];
    AdmissionIsJustified(l, before, last);
    assert before + [last] == es[..n];
    var asked := After(l, before).calls[last.call].call;
    assert JustifiedAfter(l, es, n, last.call, asked);
  }

  /** Over whole runs: every viewer found in the registry was let in by a justified join. */
  lemma ViewersAreJustified(l: GateLimits, limits: Limits, es: seq<Event>, states: seq<Registry>, s: string, c: string)
    requires Possible(l, es) && IsRun(limits, OpsOf(l, es), states) && limits.maxPeersPerSession >= 1
    requires Has(states[|states| - 1], s, c) && states[|states| - 1][s][c].peer.role == VIEWER
    ensures LetIn(l, es, s, states[|states| - 1][s][c].peer)
  {
    var ops, p := OpsOf(l, es), states[|states| - 1][s][c].peer;
    OpsAreAtomic(l, es);
    MemberWasJoined(limits, ops, states, s, c);
    var op :| op in ops && (op.Join? || op.Add?) && op.sessionId == s && op.peer == p;
    JoinIsAdmission(l, es, op);
    var n: nat :| n <= |es| && AdmittedBy(l, es[..n], op.sessionId, op.peer);
    AdmittedIsLetIn(l, es, n, s, p);
  }

  /** And the registry keeps its invariants in every run of the gate. */
  lemma RegistryStaysSound(l: GateLimits, limits: Limits, es: seq<Event>, states: seq<Registry>)
    requires Possible(l, es) && IsRun(limits, OpsOf(l, es), states) && limits.maxPeersPerSession >= 1
    ensures Sound(limits, states[|states| - 1]) && OneSessionPerClient(states[|states| - 1])
  {
    OpsAreAtomic(l, es);
    SoundAlways(limits, OpsOf(l, es), states, |OpsOf(l, es)|);
    RefinesAlways(limits, OpsOf(l, es), states, |OpsOf(l, es)|);
  }
}
