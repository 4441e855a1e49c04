// What the three limiters of the gate guarantee over its runs: how often the host is asked, how
// many joins of one address get past the first step, and how many wrong passwords can be tried.

module GateLimiters {
  import opened Basics
  import opened JoinGate
  import RateLimit

  ghost predicate ClockRuns(es: seq<Event>) { forall i, j :: 0 <= i < j < |es| ==> es[i].now <= es[j].now }

  ghost predicate NotAfter(es: seq<Event>, end: int) { forall i :: 0 <= i < |es| ==> es[i].now <= end }

  // ----- approval requests

  // The calls of `consume` that a run makes of the limiter of approval requests.
  ghost function ApprovalCalls(l: GateLimits, es: seq<Event>): seq<RateLimit.Call>
    requires Possible(l, es)
    decreases |es|
  {
    if es == [] then []
    else
      var before, last := es[..|es| - 1], es[|es| - 1];
      if Asks(After(l, before), last)
      then ApprovalCalls(l, before) + [RateLimit.Consume(KeyOf(After(l, before).calls[last.call].call), last.now)]
      else ApprovalCalls(l, before)
  }

  // The step needs the host's approval and has none in the cache.
  predicate Asks(g: Gate, e: Event)
    requires Enabled(g, e)
  {
    e.Verified? && e.accepted && g.calls[e.call].phase.approvalRequired
    && !RecentlyApproved(g.approvals, KeyOf(g.calls[e.call].call), e.now)
  }

  lemma ApprovalStep(l: GateLimits, g: Gate, e: Event)
    requires Enabled(g, e)
    ensures Apply(l, g, e).approvalRequests
            == if Asks(g, e)
               then RateLimit.Step(l.approval, g.approvalRequests, RateLimit.Consume(KeyOf(g.calls[e.call].call), e.now)).0
               else g.approvalRequests
  {
  }

  // The limiter after one call more.
  lemma NextTable(limits: RateLimit.Limits, calls: seq<RateLimit.Call>, call: RateLimit.Call, next: seq<RateLimit.Call>)
    requires next == calls + [call]
    ensures RateLimit.After(limits, next) == RateLimit.Step(limits, RateLimit.After(limits, calls), call).0
  {
    assert next[..|next| - 1] == calls;
  }

  lemma {:induction false} ApprovalLimiterRuns(l: GateLimits, es: seq<Event>)
    requires Possible(l, es)
    ensures After(l, es).approvalRequests == RateLimit.After(l.approval, ApprovalCalls(l, es))
    decreases |es|
  {
    if es != [] {
      var before, last := es[..|es| - 1], es[|es| - 1];
      var g := After(l, before);
      ApprovalLimiterRuns(l, before);
      ApprovalStep(l, g, last);
      if Asks(g, last) {
        NextTable(l.approval, ApprovalCalls(l, before), RateLimit.Consume(KeyOf(g.calls[last.call].call), last.now),
                  ApprovalCalls(l, es));
      }
    }
  }

  lemma {:induction false} ApprovalCallsAscend(l: GateLimits, es: seq<Event>, end: int)
    requires Possible(l, es) && ClockRuns(es) && NotAfter(es, end)
    ensures RateLimit.ClockAscends(ApprovalCalls(l, es))
    ensures forall i :: 0 <= i < |ApprovalCalls(l, es)| ==> ApprovalCalls(l, es)[i].now <= end
    decreases |es|
  {
    if es != [] {
      ApprovalCallsAscend(l, es[..|es| - 1], es[|es| - 1].now);
    }
  }

  // From this step on a call of that address and session waits for the host's answer.
  predicate StartsWaiting(g: Gate, z: Gate, c: nat, address: string, session: string) {
    c in z.calls && z.calls[c].phase.AwaitApproval? && !(c in g.calls && g.calls[c].phase.AwaitApproval?)
    && z.calls[c].call.address == address && z.calls[c].call.session == session
  }

  ghost predicate PromptsHost(g: Gate, z: Gate, address: string, session: string) {
    exists c :: StartsWaiting(g, z, c, address, session)
  }

  // When the host was asked about this address and session.
  ghost function Prompts(l: GateLimits, es: seq<Event>, address: string, session: string): seq<int>
    requires Possible(l, es)
    decreases |es|
  {
    if es == [] then []
    else
      var before, last := es[..|es| - 1], es[|es| - 1];
      if PromptsHost(After(l, before), After(l, es), address, session)
      then Prompts(l, before, address, session) + [last.now] else Prompts(l, before, address, session)
  }

  lemma PromptWasAllowed(l: GateLimits, g: Gate, e: Event, c: nat, address: string, session: string)
    requires Enabled(g, e) && StartsWaiting(g, Apply(l, g, e), c, address, session)
    ensures Asks(g, e) && KeyOf(g.calls[e.call].call) == Key(address, session)
    ensures RateLimit.Step(l.approval, g.approvalRequests, RateLimit.Consume(Key(address, session), e.now)).1
  {
    CallAfter(l, g, e, c);
  }

  lemma PromptIsAccepted(l: GateLimits, es: seq<Event>, e: Event, address: string, session: string)
    requires Possible(l, es) && Enabled(After(l, es), e)
    requires PromptsHost(After(l, es), Apply(l, After(l, es), e), address, session)
    ensures Asks(After(l, es), e) && KeyOf(After(l, es).calls[e.call].call) == Key(address, session)
    ensures RateLimit.Accepts(l.approval, ApprovalCalls(l, es), RateLimit.Consume(Key(address, session), e.now))
  {
    var g := After(l, es);
    var c :| StartsWaiting(g, Apply(l, g, e), c, address, session);
    PromptWasAllowed(l, g, e, c, address, session);
    ApprovalLimiterRuns(l, es);
  }

  lemma NextHistory(limits: RateLimit.Limits, calls: seq<RateLimit.Call>, call: RateLimit.Call, next: seq<RateLimit.Call>, key: string)
    requires next == calls + [call]
    ensures RateLimit.History(limits, next, key)
            == if call.key == key && RateLimit.Accepts(limits, calls, call) then RateLimit.History(limits, calls, key) + [call.now]
               else RateLimit.History(limits, calls, key)
  {
    assert next[..|next| - 1] == calls;
  }

  lemma NextWindow(limits: RateLimit.Limits, times: seq<int>, accepted: seq<int>, t: int, prompted: bool, counted: bool, end: int)
    requires RateLimit.InWindow(limits, times, end) <= RateLimit.InWindow(limits, accepted, end) && (prompted ==> counted)
    ensures RateLimit.InWindow(limits, if prompted then times + [t] else times, end)
            <= RateLimit.InWindow(limits, if counted then accepted + [t] else accepted, end)
  {
    RateLimit.InWindowAppend(limits, times, t, end);
    RateLimit.InWindowAppend(limits, accepted, t, end);
  }

  // Every prompt is an accepted call of the limiter.
  lemma {:induction false} PromptsAreCounted(l: GateLimits, es: seq<Event>, address: string, session: string, end: int)
    requires Possible(l, es)
    ensures RateLimit.InWindow(l.approval, Prompts(l, es, address, session), end)
            <= RateLimit.InWindow(l.approval, RateLimit.History(l.approval, ApprovalCalls(l, es), Key(address, session)), end)
    decreases |es|
  {
    if es != [] {
      var before, last, key := es[..|es| - 1], es[|es| - 1], Key(address, session);
      var g := After(l, before);
      var prompted := PromptsHost(g, After(l, es), address, session);
      var counted := Asks(g, last) && KeyOf(g.calls[last.call].call) == key
                     && RateLimit.Accepts(l.approval, ApprovalCalls(l, before), RateLimit.Consume(key, last.now));
      PromptsAreCounted(l, before, address, session, end);
      if prompted {
        PromptIsAccepted(l, before, last, address, session);
      }
      if Asks(g, last) {
        NextHistory(l.approval, ApprovalCalls(l, before), RateLimit.Consume(KeyOf(g.calls[last.call].call), last.now),
                    ApprovalCalls(l, es), key);
      }
      NextWindow(l.approval, Prompts(l, before, address, session),
                 RateLimit.History(l.approval, ApprovalCalls(l, before), key), last.now, prompted, counted, end);
    }
  }

  /** The host is asked about viewers from one address for one session at most as often, in any
      window, as the limiter allows. */
  lemma PromptsAreBounded(l: GateLimits, es: seq<Event>, address: string, session: string, end: int)
    requires Possible(l, es) && ClockRuns(es)
    ensures RateLimit.InWindow(l.approval, Prompts(l, es, address, session), end) <= l.approval.maxEvents
  {
    ApprovalCallsAscend(l, es, if es == [] then 0 else es[|es| - 1].now);
    PromptsAreCounted(l, es, address, session, end);
    RateLimit.WindowBound(l.approval, ApprovalCalls(l, es), Key(address, session), end);
  }

  // ----- joins

  // The calls of `consume` that a run makes of the limiter of join attempts.
  ghost function JoinCalls(es: seq<Event>): seq<RateLimit.Call>
    decreases |es|
  {
    if es == [] then []
    else
      var before, last := es[..|es| - 1], es[|es| - 1];
      if last.Start? && Valid(last) then JoinCalls(before) + [RateLimit.Consume(last.address, last.now)] else JoinCalls(before)
  }

  lemma JoinStep(l: GateLimits, g: Gate, e: Event)
    requires Enabled(g, e)
    ensures Apply(l, g, e).joinAttempts
            == if e.Start? && Valid(e) then RateLimit.Step(l.join, g.joinAttempts, RateLimit.Consume(e.address, e.now)).0
               else g.joinAttempts
  {
  }

  lemma {:induction false} JoinLimiterRuns(l: GateLimits, es: seq<Event>)
    requires Possible(l, es)
    ensures After(l, es).joinAttempts == RateLimit.After(l.join, JoinCalls(es))
    decreases |es|
  {
    if es != [] {
      var before, last := es[..|es| - 1], es[|es| - 1];
      JoinLimiterRuns(l, before);
      JoinStep(l, After(l, before), last);
      if last.Start? && Valid(last) {
        NextTable(l.join, JoinCalls(before), RateLimit.Consume(last.address, last.now), JoinCalls(es));
      }
    }
  }

  lemma {:induction false} JoinCallsAscend(es: seq<Event>, end: int)
    requires ClockRuns(es) && NotAfter(es, end)
    ensures RateLimit.ClockAscends(JoinCalls(es))
    ensures forall i :: 0 <= i < |JoinCalls(es)| ==> JoinCalls(es)[i].now <= end
    decreases |es|
  {
    if es != [] {
      JoinCallsAscend(es[..|es| - 1], es[|es| - 1].now);
    }
  }

  // A join from the address gets past its first step: its client is admitted, or it is suspended.
  ghost predicate LetPast(l: GateLimits, g: Gate, e: Event, address: string)
    requires Enabled(g, e)
  {
    e.Start? && e.address == address && (Admits(l, g, e) || exists c :: c in Apply(l, g, e).calls && c !in g.calls)
  }

  ghost function JoinsLetPast(l: GateLimits, es: seq<Event>, address: string): seq<int>
    requires Possible(l, es)
    decreases |es|
  {
    if es == [] then []
    else
      var before, last := es[..|es| - 1], es[|es| - 1];
      if LetPast(l, After(l, before), last, address) then JoinsLetPast(l, before, address) + [last.now]
      else JoinsLetPast(l, before, address)
  }

  lemma {:induction false} JoinsAreCounted(l: GateLimits, es: seq<Event>, address: string, end: int)
    requires Possible(l, es)
    ensures RateLimit.InWindow(l.join, JoinsLetPast(l, es, address), end)
            <= RateLimit.InWindow(l.join, RateLimit.History(l.join, JoinCalls(es), address), end)
    decreases |es|
  {
    if es != [] {
      var before, last := es[..|es| - 1], es[|es| - 1];
      var g := After(l, before);
      var past := LetPast(l, g, last, address);
      var counted := last.Start? && Valid(last) && last.address == address
                     && RateLimit.Accepts(l.join, JoinCalls(before), RateLimit.Consume(address, last.now));
      JoinsAreCounted(l, before, address, end);
      JoinLimiterRuns(l, before);
      assert past ==> counted;
      if last.Start? && Valid(last) {
        NextHistory(l.join, JoinCalls(before), RateLimit.Consume(last.address, last.now), JoinCalls(es), address);
      }
      NextWindow(l.join, JoinsLetPast(l, before, address), RateLimit.History(l.join, JoinCalls(before), address),
                 last.now, past, counted, end);
    }
  }

  /** From one address at most as many joins get past the first step, in any window, as the limiter
      allows. */
  lemma JoinsAreBounded(l: GateLimits, es: seq<Event>, address: string, end: int)
    requires Possible(l, es) && ClockRuns(es)
    ensures RateLimit.InWindow(l.join, JoinsLetPast(l, es, address), end) <= l.join.maxEvents
  {
    JoinCallsAscend(es, if es == [] then 0 else es[|es| - 1].now);
    JoinsAreCounted(l, es, address, end);
    RateLimit.WindowBound(l.join, JoinCalls(es), address, end);
  }

  // ----- wrong passwords

  predicate Fails(g: Gate, e: Event, key: string)
    requires Enabled(g, e)
  {
    e.Verified? && !e.accepted && KeyOf(g.calls[e.call].call) == key
  }

  predicate Succeeds(g: Gate, e: Event, key: string)
    requires Enabled(g, e)
  {
    e.Verified? && e.accepted && KeyOf(g.calls[e.call].call) == key
  }

  // A success makes the limiter forget.
  function FailuresAfter(g: Gate, e: Event, failures: seq<int>, key: string): seq<int>
    requires Enabled(g, e)
  {
    if Fails(g, e, key) then failures + [e.now] else if Succeeds(g, e, key) then [] else failures
  }

  // The times of the failures of a key since its last success, which resets the limiter.
  ghost function Failures(l: GateLimits, es: seq<Event>, key: string): seq<int>
    requires Possible(l, es)
    decreases |es|
  {
    if es == [] then []
    else
      var before, last := es[..|es| - 1], es[|es| - 1];
      FailuresAfter(After(l, before), last, Failures(l, before, key), key)
  }

  predicate Checks(f: InFlight, key: string) { f.phase.AwaitPassword? && KeyOf(f.call) == key }

  // The key's calls whose password is being checked.
  function Checking(calls: map<nat, InFlight>, key: string): set<nat> {
    set c | c in calls && Checks(calls[c], key)
  }

  // The largest number of them at any moment of the run.
  ghost function Peak(l: GateLimits, es: seq<Event>, key: string): nat
    requires Possible(l, es)
    decreases |es|
  {
    if es == [] then 0 else Max(Peak(l, es[..|es| - 1], key), |Checking(After(l, es).calls, key)|)
  }

  // The limiter's list says what the failures say about every later window.
  lemma {:induction false} TableIsFailures(l: GateLimits, es: seq<Event>, key: string, now: int)
    requires Possible(l, es) && ClockRuns(es) && NotAfter(es, now)
    ensures RateLimit.Active(l.password, After(l, es).passwordAttempts, key, now)
            == RateLimit.Since(Failures(l, es, key), now - l.password.windowMs)
    decreases |es|
  {
    if es != [] {
      var before, last := es[..|es| - 1], es[|es| - 1];
      TableIsFailures(l, before, key, now);
      TableStep(l, After(l, before), last, Failures(l, before, key), key, now);
    }
  }

  lemma TableStep(l: GateLimits, g: Gate, e: Event, failures: seq<int>, key: string, now: int)
    requires Enabled(g, e) && e.now <= now
    requires RateLimit.Active(l.password, g.passwordAttempts, key, now) == RateLimit.Since(failures, now - l.password.windowMs)
    ensures RateLimit.Active(l.password, Apply(l, g, e).passwordAttempts, key, now)
            == RateLimit.Since(FailuresAfter(g, e, failures, key), now - l.password.windowMs)
  {
    if e.SettingsRead? {
      RateLimit.OtherStepsHide(l.password, g.passwordAttempts,
                               RateLimit.IsAllowed(KeyOf(g.calls[e.call].call), e.now), key, now);
    } else if e.Verified? {
      VerifiedTable(l, g, e, failures, key, now);
    }
  }

  lemma VerifiedTable(l: GateLimits, g: Gate, e: Event, failures: seq<int>, key: string, now: int)
    requires Enabled(g, e) && e.now <= now && e.Verified?
    requires RateLimit.Active(l.password, g.passwordAttempts, key, now) == RateLimit.Since(failures, now - l.password.windowMs)
    ensures RateLimit.Active(l.password, VerifiedStep(l, g, e).passwordAttempts, key, now)
            == RateLimit.Since(FailuresAfter(g, e, failures, key), now - l.password.windowMs)
  {
    var of := KeyOf(g.calls[e.call].call);
    VerifiedAttempts(l, g, e);
    if !e.accepted && of == key {
      RateLimit.RecordingShows(l.password, g.passwordAttempts, key, e.now, now);
      RateLimit.SinceAppend(failures, e.now, now - l.password.windowMs);
    }
  }

  lemma VerifiedAttempts(l: GateLimits, g: Gate, e: Event)
    requires Enabled(g, e) && e.Verified?
    ensures var key := KeyOf(g.calls[e.call].call);
      VerifiedStep(l, g, e).passwordAttempts
      == if e.accepted then g.passwordAttempts - {key} else RateLimit.Recorded(l.password, g.passwordAttempts, key, e.now)
  {
  }

  lemma {:induction false} FailuresArePast(l: GateLimits, es: seq<Event>, key: string, end: int)
    requires Possible(l, es) && NotAfter(es, end)
    ensures RateLimit.Before(Failures(l, es, key), end)
    decreases |es|
  {
    if es != [] {
      FailuresArePast(l, es[..|es| - 1], key, end);
    }
  }

  lemma CheckingWithout(calls: map<nat, InFlight>, c: nat, key: string)
    ensures Checking(calls - {c}, key) == Checking(calls, key) - {c}
  {
  }

  lemma CheckingWith(calls: map<nat, InFlight>, c: nat, f: InFlight, key: string)
    ensures Checking(calls[c := f], key) == if Checks(f, key) then Checking(calls, key) + {c} else Checking(calls, key) - {c}
  {
  }

  // What a step does to the calls being checked: reading the settings lets a call in, the end of
  // the check lets it out.
  lemma CheckingStep(l: GateLimits, g: Gate, e: Event, key: string)
    requires Enabled(g, e) && g.steps !in g.calls
    ensures var (before, after) := (Checking(g.calls, key), Checking(Apply(l, g, e).calls, key));
      if e.Verified? && KeyOf(g.calls[e.call].call) == key then e.call in before && after == before - {e.call}
      else if e.SettingsRead? && KeyOf(g.calls[e.call].call) == key
              && RateLimit.Allowed(l.password, g.passwordAttempts, key, e.now) then e.call !in before && after == before + {e.call}
      else after == before
  {
    if e.Start? {
      CheckingStart(l, g, e, key);
    } else if e.SettingsRead? {
      CheckingSettings(l, g, e, key);
    } else if e.Verified? {
      CheckingVerified(l, g, e, key);
    } else if e.Answered? {
      CheckingWithout(g.calls, e.call, key);
    }
  }

  lemma CheckingStart(l: GateLimits, g: Gate, e: Event, key: string)
    requires e.Start? && g.steps !in g.calls
    ensures Checking(StartStep(l, g, e).calls, key) == Checking(g.calls, key)
  {
    if Valid(e) {
      CheckingWith(g.calls, g.steps, InFlight(StartedCall(e), AwaitSettings), key);
    }
  }

  lemma CheckingSettings(l: GateLimits, g: Gate, e: Event, key: string)
    requires e.SettingsRead? && Enabled(g, e)
    ensures var (before, after) := (Checking(g.calls, key), Checking(SettingsStep(l, g, e).calls, key));
      e.call !in before
      && after == if KeyOf(g.calls[e.call].call) == key && RateLimit.Allowed(l.password, g.passwordAttempts, key, e.now)
                  then before + {e.call} else before
  {
    CheckingWithout(g.calls, e.call, key);
    CheckingWith(g.calls, e.call, InFlight(g.calls[e.call].call, AwaitPassword(Required(e.requireApproval))), key);
  }

  lemma CheckingVerified(l: GateLimits, g: Gate, e: Event, key: string)
    requires e.Verified? && Enabled(g, e)
    ensures Checking(VerifiedStep(l, g, e).calls, key) == Checking(g.calls, key) - {e.call}
  {
    var z := VerifiedStep(l, g, e);
    CheckingWithout(g.calls, e.call, key);
    CheckingWith(g.calls, e.call, InFlight(g.calls[e.call].call, AwaitApproval), key);
    assert z.calls == g.calls - {e.call} || z.calls == g.calls[e.call := InFlight(g.calls[e.call].call, AwaitApproval)];
  }

  lemma NextCallIsNew(l: GateLimits, es: seq<Event>)
    requires Possible(l, es)
    ensures After(l, es).steps !in After(l, es).calls
  {
    AlwaysKnown(l, es);
    assert forall c :: c in After(l, es).calls ==> CallKnown(es, c, After(l, es).calls[c]);
  }

  /** A failed check only moves a call from those being checked to the failures, and a call is taken
      for checking only while there is room: failures in the window and calls being checked stay
      together below the limit plus the peak. */
  lemma {:induction false} FailuresAndChecks(l: GateLimits, es: seq<Event>, key: string, end: int)
    requires Possible(l, es) && ClockRuns(es) && NotAfter(es, end) && l.password.maxEvents >= 1
    ensures RateLimit.InWindow(l.password, Failures(l, es, key), end) + |Checking(After(l, es).calls, key)|
            <= l.password.maxEvents - 1 + Peak(l, es, key)
    decreases |es|
  {
    if es == [] {
      assert Checking(After(l, es).calls, key) == {};
    } else {
      var before, last := es[..|es| - 1], es[|es| - 1];
      var g := After(l, before);
      FailuresAndChecks(l, before, key, end);
      NextCallIsNew(l, before);
      if last.SettingsRead? && RateLimit.Allowed(l.password, g.passwordAttempts, key, last.now) {
        RoomMeansFewFailures(l, before, key, last.now, end);
      }
      FailedOrChecked(l, g, last, Failures(l, before, key), key, end, Peak(l, before, key));
    }
  }

  lemma FailedOrChecked(l: GateLimits, g: Gate, e: Event, failures: seq<int>, key: string, end: int, peak: nat)
    requires Enabled(g, e) && g.steps !in g.calls && l.password.maxEvents >= 1
    requires RateLimit.InWindow(l.password, failures, end) + |Checking(g.calls, key)| <= l.password.maxEvents - 1 + peak
    requires e.SettingsRead? && RateLimit.Allowed(l.password, g.passwordAttempts, key, e.now)
             ==> RateLimit.InWindow(l.password, failures, end) <= l.password.maxEvents - 1
    ensures var checking := |Checking(Apply(l, g, e).calls, key)|;
      RateLimit.InWindow(l.password, FailuresAfter(g, e, failures, key), end) + checking
      <= l.password.maxEvents - 1 + Max(peak, checking)
  {
    CheckingStep(l, g, e, key);
    RateLimit.InWindowAppend(l.password, failures, e.now, end);
  }

  lemma RoomMeansFewFailures(l: GateLimits, es: seq<Event>, key: string, now: int, end: int)
    requires Possible(l, es) && ClockRuns(es) && NotAfter(es, now) && now <= end
    requires RateLimit.Allowed(l.password, After(l, es).passwordAttempts, key, now)
    ensures RateLimit.InWindow(l.password, Failures(l, es, key), end) <= l.password.maxEvents - 1
  {
    var attempts, failures := After(l, es).passwordAttempts, Failures(l, es, key);
    assert RateLimit.Active(l.password, attempts, key, now) == RateLimit.Since(failures, now - l.password.windowMs) by {
      TableIsFailures(l, es, key, now);
    }
    FailuresArePast(l, es, key, now);
    FewSinceFewInWindow(l.password, attempts, failures, key, now, end);
  }

  lemma FewSinceFewInWindow(limits: RateLimit.Limits, attempts: RateLimit.Events, times: seq<int>, key: string, now: int, end: int)
    requires RateLimit.Before(times, now) && now <= end && RateLimit.Allowed(limits, attempts, key, now)
    requires RateLimit.Active(limits, attempts, key, now) == RateLimit.Since(times, now - limits.windowMs)
    ensures RateLimit.InWindow(limits, times, end) <= limits.maxEvents - 1
  {
    RateLimit.WindowIsSince(limits, times, now);
    RateLimit.LaterWindow(limits, times, now, end);
  }

  /** In any window, the failures of a key since its last success are at most one less than the limit,
      plus the largest number of the key's calls that were being checked at once. */
  lemma {:induction false} FailuresAreBounded(l: GateLimits, es: seq<Event>, key: string, end: int)
    requires Possible(l, es) && ClockRuns(es) && l.password.maxEvents >= 1
    ensures RateLimit.InWindow(l.password, Failures(l, es, key), end) <= l.password.maxEvents - 1 + Peak(l, es, key)
    decreases |es|
  {
    if es != [] {
      var before, last := es[..|es| - 1], es[|es| - 1];
      FailuresAreBounded(l, before, key, end);
      if last.now <= end {
        FailuresAndChecks(l, es, key, end);
      } else {
        LaterStepsDoNotCount(l, es, key, end);
      }
    }
  }

  lemma LaterStepsDoNotCount(l: GateLimits, es: seq<Event>, key: string, end: int)
    requires Possible(l, es) && es != [] && es[|es| - 1].now > end
    ensures RateLimit.InWindow(l.password, Failures(l, es, key), end)
            <= RateLimit.InWindow(l.password, Failures(l, es[..|es| - 1], key), end)
  {
    RateLimit.InWindowAppend(l.password, Failures(l, es[..|es| - 1], key), es[|es| - 1].now, end);
  }

  // A limiter for none lets nothing past.
  predicate NothingChecked(l: GateLimits, g: Gate) {
    forall c :: c in g.calls ==> g.calls[c].phase.AwaitSettings? && l.join.maxEvents >= 1
  }

  lemma NothingIsLetIn(l: GateLimits, g: Gate, e: Event)
    requires Enabled(g, e) && NothingChecked(l, g) && (l.join.maxEvents == 0 || l.password.maxEvents == 0)
    ensures !e.Verified? && NothingChecked(l, Apply(l, g, e))
  {
    forall c | c in Apply(l, g, e).calls
      ensures Apply(l, g, e).calls[c].phase.AwaitSettings? && l.join.maxEvents >= 1
    {
      CallAfter(l, g, e, c);
    }
  }

  lemma {:induction false} NothingFails(l: GateLimits, es: seq<Event>, key: string)
    requires Possible(l, es) && (l.join.maxEvents == 0 || l.password.maxEvents == 0)
    ensures NothingChecked(l, After(l, es)) && Failures(l, es, key) == [] && AllFailures(l, es, key) == []
    decreases |es|
  {
    if es != [] {
      NothingFails(l, es[..|es| - 1], key);
      NothingIsLetIn(l, After(l, es[..|es| - 1]), es[|es| - 1]);
    }
  }

  /** So when no two checks of a key overlap, its failures never exceed the limit. */
  lemma SeparateChecksAreBounded(l: GateLimits, es: seq<Event>, key: string, end: int)
    requires Possible(l, es) && ClockRuns(es) && Peak(l, es, key) <= 1
    ensures RateLimit.InWindow(l.password, Failures(l, es, key), end) <= l.password.maxEvents
  {
    if l.password.maxEvents == 0 {
      NothingFails(l, es, key);
    } else {
      FailuresAreBounded(l, es, key, end);
    }
  }

  // All failures of a key, also those that a success has made the limiter forget.
  ghost function AllFailures(l: GateLimits, es: seq<Event>, key: string): seq<int>
    requires Possible(l, es)
    decreases |es|
  {
    if es == [] then []
    else
      var before, last := es[..|es| - 1], es[|es| - 1];
      if Fails(After(l, before), last, key) then AllFailures(l, before, key) + [last.now] else AllFailures(l, before, key)
  }

  ghost predicate NoSuccessSince(l: GateLimits, es: seq<Event>, key: string, cutoff: int)
    requires Possible(l, es)
    decreases |es|
  {
    es == []
    || (NoSuccessSince(l, es[..|es| - 1], key, cutoff)
        && (Succeeds(After(l, es[..|es| - 1]), es[|es| - 1], key) ==> es[|es| - 1].now <= cutoff))
  }

  lemma {:induction false} AllFailuresArePast(l: GateLimits, es: seq<Event>, key: string, end: int)
    requires Possible(l, es) && NotAfter(es, end)
    ensures RateLimit.Before(AllFailures(l, es, key), end)
    decreases |es|
  {
    if es != [] {
      AllFailuresArePast(l, es[..|es| - 1], key, end);
    }
  }

  lemma {:induction false} OnlyOldOnesForgotten(l: GateLimits, es: seq<Event>, key: string, end: int)
    requires Possible(l, es) && ClockRuns(es) && NoSuccessSince(l, es, key, end - l.password.windowMs)
    ensures RateLimit.InWindow(l.password, AllFailures(l, es, key), end) == RateLimit.InWindow(l.password, Failures(l, es, key), end)
    decreases |es|
  {
    if es != [] {
      var before, last := es[..|es| - 1], es[|es| - 1];
      OnlyOldOnesForgotten(l, before, key, end);
      if Fails(After(l, before), last, key) {
        RateLimit.InWindowAppend(l.password, AllFailures(l, before, key), last.now, end);
        RateLimit.InWindowAppend(l.password, Failures(l, before, key), last.now, end);
      } else if Succeeds(After(l, before), last, key) {
        AllFailuresArePast(l, before, key, last.now);
        RateLimit.EarlierIsOutside(l.password, AllFailures(l, before, key), last.now, end);
      }
    }
  }

  /** The bound is one on all failures of the key in a window in which it has no success. */
  lemma AllFailuresAreBounded(l: GateLimits, es: seq<Event>, key: string, end: int)
    requires Possible(l, es) && ClockRuns(es) && l.password.maxEvents >= 1
    requires NoSuccessSince(l, es, key, end - l.password.windowMs)
    ensures RateLimit.InWindow(l.password, AllFailures(l, es, key), end) <= l.password.maxEvents - 1 + Peak(l, es, key)
  {
    OnlyOldOnesForgotten(l, es, key, end);
    FailuresAreBounded(l, es, key, end);
  }
}
