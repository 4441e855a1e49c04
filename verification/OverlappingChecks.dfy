// The password limiter is asked before the await of a check and told after it. When this keeps the
// failures of a key within the limit, and when it does not: both conditions are exact.

module OverlappingChecks {
  import opened Basics
  import opened Sessions
  import opened JoinGate
  import opened GateLimiters
  import RateLimit

  // ----- runs made event by event

  // A run up to `now`: the failures of the key since its last success, all its failures, and a
  // bound on how many of its checks overlap.
  ghost predicate Trace(l: GateLimits, es: seq<Event>, key: string, now: int, failures: seq<int>, all: seq<int>, p: nat) {
    && Possible(l, es) && ClockRuns(es) && NotAfter(es, now)
    && Failures(l, es, key) == failures && AllFailures(l, es, key) == all && Peak(l, es, key) <= p
  }

  lemma Extend(l: GateLimits, es: seq<Event>, e: Event, key: string, failures: seq<int>, all: seq<int>, p: nat, next: seq<Event>)
    requires Trace(l, es, key, e.now, failures, all, p) && Enabled(After(l, es), e) && next == es + [e]
    requires |Checking(Apply(l, After(l, es), e).calls, key)| <= p
    ensures var g := After(l, es);
      After(l, next) == Apply(l, g, e)
      && Trace(l, next, key, e.now, FailuresAfter(g, e, failures, key), if Fails(g, e, key) then all + [e.now] else all, p)
  {
    assert next[..|next| - 1] == es;
  }

  lemma ExtendQuietly(l: GateLimits, es: seq<Event>, e: Event, key: string, failures: seq<int>, all: seq<int>,
                      p: nat, next: seq<Event>)
    requires Trace(l, es, key, e.now, failures, all, p) && Enabled(After(l, es), e) && next == es + [e] && !e.Verified?
    requires |Checking(Apply(l, After(l, es), e).calls, key)| <= p
    ensures Trace(l, next, key, e.now, failures, all, p) && After(l, next) == Apply(l, After(l, es), e)
  {
    Extend(l, es, e, key, failures, all, p, next);
  }

  lemma ExtendByEnd(l: GateLimits, es: seq<Event>, e: Event, key: string, failures: seq<int>, all: seq<int>, p: nat, next: seq<Event>)
    requires Trace(l, es, key, e.now, failures, all, p) && Enabled(After(l, es), e) && next == es + [e] && e.Verified?
    requires Fails(After(l, es), e, key) == !e.accepted && Succeeds(After(l, es), e, key) == e.accepted
    requires |Checking(Apply(l, After(l, es), e).calls, key)| <= p
    ensures Trace(l, next, key, e.now, if e.accepted then [] else failures + [e.now], if e.accepted then all else all + [e.now], p)
    ensures After(l, next) == Apply(l, After(l, es), e)
  {
    Extend(l, es, e, key, failures, all, p, next);
  }

  lemma TraceLater(l: GateLimits, es: seq<Event>, key: string, now: int, later: int, p: nat)
    requires Trace(l, es, key, now, [], [], p) && now <= later
    ensures Trace(l, es, key, later, [], [], p)
  {
  }

  // ----- a crowd of joins of one viewer

  predicate ProperCall(call: Call) { SanitizeSessionId(call.session) == Some(call.session) }

  predicate Waits(c: nat, done: nat, k: nat) { done <= c < k }

  // k joins wait; the first `asked` of them for their password check, less those `done`.
  function Crowd(call: Call, k: nat, asked: nat, done: nat): map<nat, InFlight> {
    map c: nat | done <= c < k && Waits(c, done, k) :: InFlight(call, if c < asked then AwaitPassword(true) else AwaitSettings)
  }

  lemma CrowdAsks(call: Call, k: nat, asked: nat, done: nat)
    requires done <= asked < k
    ensures Crowd(call, k, asked + 1, done) == Crowd(call, k, asked, done)[asked := InFlight(call, AwaitPassword(true))]
    ensures asked in Crowd(call, k, asked, done) && Crowd(call, k, asked, done)[asked] == InFlight(call, AwaitSettings)
  {
    assert Waits(asked, done, k);
  }

  lemma CrowdLeaves(call: Call, k: nat, asked: nat, done: nat)
    requires done < asked <= k
    ensures Crowd(call, k, asked, done + 1) == Crowd(call, k, asked, done) - {done}
    ensures done in Crowd(call, k, asked, done) && Crowd(call, k, asked, done)[done] == InFlight(call, AwaitPassword(true))
  {
    assert Waits(done, done, k);
  }

  lemma NobodyChecks(call: Call, k: nat, done: nat)
    ensures Checking(Crowd(call, k, done, done), KeyOf(call)) == {}
  {
    forall c | c in Crowd(call, k, done, done)
      ensures Crowd(call, k, done, done)[c] == InFlight(call, AwaitSettings)
    {
    }
  }

  lemma {:induction false} CrowdChecks(call: Call, k: nat, asked: nat, done: nat)
    requires done <= asked <= k
    ensures |Checking(Crowd(call, k, asked, done), KeyOf(call))| == asked - done
    decreases asked
  {
    if asked == done {
      NobodyChecks(call, k, done);
    } else {
      CrowdChecks(call, k, asked - 1, done);
      CrowdAsks(call, k, asked - 1, done);
      OneMoreChecks(Crowd(call, k, asked - 1, done), asked - 1, call);
    }
  }

  lemma OneMoreChecks(calls: map<nat, InFlight>, c: nat, call: Call)
    requires c in calls && calls[c] == InFlight(call, AwaitSettings)
    ensures |Checking(calls[c := InFlight(call, AwaitPassword(true))], KeyOf(call))| == |Checking(calls, KeyOf(call))| + 1
  {
    CheckingWith(calls, c, InFlight(call, AwaitPassword(true)), KeyOf(call));
  }

  // Join i comes i windows of the join limiter after the first, so that all of them are let past.
  function Arrival(l: GateLimits, call: Call, i: nat): Event {
    Start(call.client, call.address, call.session, Some(VIEWER), call.name, i * l.join.windowMs)
  }

  ghost predicate HaveArrived(l: GateLimits, g: Gate, call: Call, k: nat) {
    g.steps == k && g.calls == Crowd(call, k, 0, 0)
    && RateLimit.Before(RateLimit.Stored(g.joinAttempts, call.address), (k - 1) * l.join.windowMs)
  }

  lemma ArrivalStep(l: GateLimits, g: Gate, call: Call, k: nat)
    requires ProperCall(call) && l.join.maxEvents >= 1 && HaveArrived(l, g, call, k)
    ensures HaveArrived(l, Apply(l, g, Arrival(l, call, k)), call, k + 1)
  {
    var now := k * l.join.windowMs;
    RateLimit.SinceNone(RateLimit.Stored(g.joinAttempts, call.address), now - l.join.windowMs);
    assert Crowd(call, k + 1, 0, 0) == Crowd(call, k, 0, 0)[k := InFlight(call, AwaitSettings)];
  }

  lemma OneArrived(l: GateLimits, es: seq<Event>, call: Call, k: nat, p: nat, next: seq<Event>)
    requires ProperCall(call) && l.join.maxEvents >= 1 && next == es + [Arrival(l, call, k)]
    requires Trace(l, es, KeyOf(call), (k - 1) * l.join.windowMs, [], [], p) && HaveArrived(l, After(l, es), call, k)
    ensures Trace(l, next, KeyOf(call), k * l.join.windowMs, [], [], p) && HaveArrived(l, After(l, next), call, k + 1)
  {
    TraceLater(l, es, KeyOf(call), (k - 1) * l.join.windowMs, k * l.join.windowMs, p);
    ArrivalStep(l, After(l, es), call, k);
    CrowdChecks(call, k + 1, 0, 0);
    ExtendQuietly(l, es, Arrival(l, call, k), KeyOf(call), [], [], p, next);
  }

  lemma {:induction false} Arrivals(l: GateLimits, call: Call, k: nat, p: nat) returns (es: seq<Event>)
    requires ProperCall(call) && l.join.maxEvents >= 1
    ensures Trace(l, es, KeyOf(call), (k - 1) * l.join.windowMs, [], [], p) && HaveArrived(l, After(l, es), call, k)
  {
    if k == 0 {
      es := [];
      assert Crowd(call, 0, 0, 0) == map[];
    } else {
      var before := Arrivals(l, call, k - 1, p);
      es := before + [Arrival(l, call, k - 1)];
      OneArrived(l, before, call, k - 1, p, es);
    }
  }

  // ----- one check begins, one check ends

  lemma HasRoom(l: GateLimits, es: seq<Event>, key: string, now: int, failures: seq<int>)
    requires Possible(l, es) && ClockRuns(es) && NotAfter(es, now) && Failures(l, es, key) == failures
    requires |failures| < l.password.maxEvents
    ensures RateLimit.Allowed(l.password, After(l, es).passwordAttempts, key, now)
  {
    var attempts := After(l, es).passwordAttempts;
    assert RateLimit.Active(l.password, attempts, key, now) == RateLimit.Since(failures, now - l.password.windowMs) by {
      TableIsFailures(l, es, key, now);
    }
    FewLeaveRoom(l.password, attempts, key, now, failures);
  }

  lemma FewLeaveRoom(limits: RateLimit.Limits, attempts: RateLimit.Events, key: string, now: int, failures: seq<int>)
    requires RateLimit.Active(limits, attempts, key, now) == RateLimit.Since(failures, now - limits.windowMs)
    requires |failures| < limits.maxEvents
    ensures RateLimit.Allowed(limits, attempts, key, now)
  {
    NoLonger(RateLimit.Active(limits, attempts, key, now), failures, now - limits.windowMs);
  }

  lemma NoLonger(active: seq<int>, failures: seq<int>, cutoff: int)
    requires active == RateLimit.Since(failures, cutoff)
    ensures |active| <= |failures|
  {
    RateLimit.SinceIsShorter(failures, cutoff);
  }

  lemma AskedStep(l: GateLimits, g: Gate, call: Call, k: nat, asked: nat, done: nat, now: int)
    requires done <= asked < k && g.calls == Crowd(call, k, asked, done)
    requires RateLimit.Allowed(l.password, g.passwordAttempts, KeyOf(call), now)
    ensures Enabled(g, SettingsRead(asked, None, now))
    ensures Apply(l, g, SettingsRead(asked, None, now)).calls == Crowd(call, k, asked + 1, done)
  {
    CrowdAsks(call, k, asked, done);
  }

  // The next join is let in to its password check.
  lemma OneAsked(l: GateLimits, es: seq<Event>, call: Call, k: nat, asked: nat, done: nat, now: int, failures: seq<int>,
                 all: seq<int>, p: nat, next: seq<Event>)
    requires Trace(l, es, KeyOf(call), now, failures, all, p) && After(l, es).calls == Crowd(call, k, asked, done)
    requires done <= asked < k && asked + 1 - done <= p && |failures| < l.password.maxEvents
    requires next == es + [SettingsRead(asked, None, now)]
    ensures Trace(l, next, KeyOf(call), now, failures, all, p) && After(l, next).calls == Crowd(call, k, asked + 1, done)
  {
    HasRoom(l, es, KeyOf(call), now, failures);
    AskedStep(l, After(l, es), call, k, asked, done, now);
    CrowdChecks(call, k, asked + 1, done);
    ExtendQuietly(l, es, SettingsRead(asked, None, now), KeyOf(call), failures, all, p, next);
  }

  lemma EndedStep(l: GateLimits, g: Gate, call: Call, k: nat, asked: nat, done: nat, accepted: bool, now: int)
    requires done < asked <= k && g.calls == Crowd(call, k, asked, done)
    ensures var e := Verified(done, accepted, None, now);
      Enabled(g, e) && Apply(l, g, e).calls == Crowd(call, k, asked, done + 1)
      && Fails(g, e, KeyOf(call)) == !accepted && Succeeds(g, e, KeyOf(call)) == accepted
  {
    CrowdLeaves(call, k, asked, done);
  }

  // The oldest check ends; when the password is accepted there is no host to ask.
  lemma OneEnded(l: GateLimits, es: seq<Event>, call: Call, k: nat, asked: nat, done: nat, accepted: bool, now: int,
                 failures: seq<int>, all: seq<int>, p: nat, next: seq<Event>)
    requires Trace(l, es, KeyOf(call), now, failures, all, p) && After(l, es).calls == Crowd(call, k, asked, done)
    requires done < asked <= k && asked - done <= p && next == es + [Verified(done, accepted, None, now)]
    ensures Trace(l, next, KeyOf(call), now, if accepted then [] else failures + [now], if accepted then all else all + [now], p)
    ensures After(l, next).calls == Crowd(call, k, asked, done + 1)
  {
    EndedStep(l, After(l, es), call, k, asked, done, accepted, now);
    CrowdChecks(call, k, asked, done + 1);
    ExtendByEnd(l, es, Verified(done, accepted, None, now), KeyOf(call), failures, all, p, next);
  }

  // ----- the bound is reached

  ghost predicate Failed(l: GateLimits, es: seq<Event>, call: Call, k: nat, asked: nat, done: nat, now: int, p: nat) {
    Trace(l, es, KeyOf(call), now, RateLimit.Copies(now, done), RateLimit.Copies(now, done), p)
    && After(l, es).calls == Crowd(call, k, asked, done)
  }

  lemma AskOne(l: GateLimits, es: seq<Event>, call: Call, k: nat, asked: nat, done: nat, now: int, p: nat, next: seq<Event>)
    requires Failed(l, es, call, k, asked, done, now, p) && done <= asked < k && asked + 1 - done <= p
    requires done < l.password.maxEvents && next == es + [SettingsRead(asked, None, now)]
    ensures Failed(l, next, call, k, asked + 1, done, now, p)
  {
    OneAsked(l, es, call, k, asked, done, now, RateLimit.Copies(now, done), RateLimit.Copies(now, done), p, next);
  }

  lemma FailOne(l: GateLimits, es: seq<Event>, call: Call, k: nat, asked: nat, done: nat, now: int, p: nat, next: seq<Event>)
    requires Failed(l, es, call, k, asked, done, now, p) && done < asked <= k && asked - done <= p
    requires next == es + [Verified(done, false, None, now)]
    ensures Failed(l, next, call, k, asked, done + 1, now, p)
  {
    OneEnded(l, es, call, k, asked, done, false, now, RateLimit.Copies(now, done), RateLimit.Copies(now, done), p, next);
    RateLimit.CopiesAppend(now, done);
  }

  // n checks fail one after the other.
  lemma {:induction false} Separate(l: GateLimits, call: Call, k: nat, n: nat, now: int, p: nat) returns (es: seq<Event>)
    requires ProperCall(call) && l.join.maxEvents >= 1 && (k - 1) * l.join.windowMs <= now
    requires n <= k && n <= l.password.maxEvents && (n > 0 ==> p >= 1)
    ensures Failed(l, es, call, k, n, n, now, p)
  {
    if n == 0 {
      es := Arrivals(l, call, k, p);
      TraceLater(l, es, KeyOf(call), (k - 1) * l.join.windowMs, now, p);
      assert RateLimit.Copies(now, 0) == [];
    } else {
      var before := Separate(l, call, k, n - 1, now, p);
      var asked := before + [SettingsRead(n - 1, None, now)];
      AskOne(l, before, call, k, n - 1, n - 1, now, p, asked);
      es := asked + [Verified(n - 1, false, None, now)];
      FailOne(l, asked, call, k, n, n - 1, now, p, es);
    }
  }

  // Then m more begin.
  lemma {:induction false} Overlapping(l: GateLimits, call: Call, k: nat, n: nat, m: nat, now: int, p: nat) returns (es: seq<Event>)
    requires ProperCall(call) && l.join.maxEvents >= 1 && (k - 1) * l.join.windowMs <= now
    requires n + m <= k && n < l.password.maxEvents && m <= p && (n > 0 ==> p >= 1)
    ensures Failed(l, es, call, k, n + m, n, now, p)
  {
    if m == 0 {
      es := Separate(l, call, k, n, now, p);
    } else {
      var before := Overlapping(l, call, k, n, m - 1, now, p);
      es := before + [SettingsRead(n + m - 1, None, now)];
      AskOne(l, before, call, k, n + m - 1, n, now, p, es);
    }
  }

  // And m of these fail.
  lemma {:induction false} Failing(l: GateLimits, call: Call, k: nat, n: nat, m: nat, now: int, p: nat) returns (es: seq<Event>)
    requires ProperCall(call) && l.join.maxEvents >= 1 && (k - 1) * l.join.windowMs <= now
    requires k == n + p && m <= p && n < l.password.maxEvents && (n > 0 ==> p >= 1)
    ensures Failed(l, es, call, k, k, n + m, now, p)
    decreases m
  {
    if m == 0 {
      es := Overlapping(l, call, k, n, p, now, p);
    } else {
      var before := Failing(l, call, k, n, m - 1, now, p);
      es := before + [Verified(n + m - 1, false, None, now)];
      FailOne(l, before, call, k, k, n + m - 1, now, p, es);
    }
  }

  // At most p checks overlap, and n + p failures lie in the window that ends at `end`.
  ghost predicate Reaches(l: GateLimits, es: seq<Event>, key: string, end: int, n: nat, p: nat) {
    Possible(l, es) && ClockRuns(es) && Peak(l, es, key) <= p
    && RateLimit.InWindow(l.password, Failures(l, es, key), end) == n + p
  }

  /** For every n below the limit and every p there is a run in which at most p checks of the key
      overlap and n + p of them fail in one window: n one after the other, and then p at once. */
  lemma OverlappingChecksOvershoot(l: GateLimits, call: Call, n: nat, p: nat)
    requires ProperCall(call) && l.join.maxEvents >= 1 && l.password.windowMs >= 1
    requires n < l.password.maxEvents && (n > 0 ==> p >= 1)
    ensures exists es, end :: Reaches(l, es, KeyOf(call), end, n, p)
  {
    var now := (n + p - 1) * l.join.windowMs;
    var es := Failing(l, call, n + p, n, p, now, p);
    RateLimit.CopiesInWindow(l.password, now, n + p);
    assert Reaches(l, es, KeyOf(call), now, n, p);
  }

  ghost predicate ReachesBound(l: GateLimits, es: seq<Event>, key: string, end: int, p: nat) {
    Possible(l, es) && ClockRuns(es) && Peak(l, es, key) == p
    && RateLimit.InWindow(l.password, Failures(l, es, key), end) == l.password.maxEvents - 1 + p
  }

  /** So the bound on the failures is reached for every number of overlapping checks. */
  lemma BoundIsReached(l: GateLimits, call: Call, p: nat)
    requires ProperCall(call) && CanFail(l) && p >= 1
    ensures exists es, end :: ReachesBound(l, es, KeyOf(call), end, p)
  {
    OverlappingChecksOvershoot(l, call, l.password.maxEvents - 1, p);
    var es, end :| Reaches(l, es, KeyOf(call), end, l.password.maxEvents - 1, p);
    ReachesWithThatPeak(l, es, KeyOf(call), end, p);
  }

  lemma ReachesWithThatPeak(l: GateLimits, es: seq<Event>, key: string, end: int, p: nat)
    requires l.password.maxEvents >= 1 && Reaches(l, es, key, end, l.password.maxEvents - 1, p)
    ensures ReachesBound(l, es, key, end, p)
  {
    FailuresAreBounded(l, es, key, end);
  }

  // ----- the exact condition

  ghost predicate WithinLimit(l: GateLimits, p: nat) {
    forall es, key, end :: Possible(l, es) && ClockRuns(es) && Peak(l, es, key) <= p ==>
      RateLimit.InWindow(l.password, Failures(l, es, key), end) <= l.password.maxEvents
  }

  // Joins get as far as their checks, and there is a window to fail in.
  predicate CanFail(l: GateLimits) { l.join.maxEvents >= 1 && l.password.maxEvents >= 1 && l.password.windowMs >= 1 }

  lemma NoFailureCounts(l: GateLimits, es: seq<Event>, key: string, end: int)
    requires Possible(l, es) && !CanFail(l)
    ensures RateLimit.InWindow(l.password, Failures(l, es, key), end) == 0
    ensures RateLimit.InWindow(l.password, AllFailures(l, es, key), end) == 0
  {
    if l.password.windowMs == 0 {
      RateLimit.NoWindow(l.password, Failures(l, es, key), end);
      RateLimit.NoWindow(l.password, AllFailures(l, es, key), end);
    } else {
      NothingFails(l, es, key);
    }
  }

  const SOMEBODY := Call("", "", "a", None)

  lemma SomebodyIsProper()
    ensures ProperCall(SOMEBODY)
  {
    TrimToken("a", 64);
  }

  /** The failures stay within the limit in all runs in which at most p checks overlap, if and only
      if that is at most one (or no check can fail at all). */
  lemma OverlapConditionIsExact(l: GateLimits, p: nat)
    ensures WithinLimit(l, p) <==> p <= 1 || !CanFail(l)
  {
    if p <= 1 || !CanFail(l) {
      forall es, key, end | Possible(l, es) && ClockRuns(es) && Peak(l, es, key) <= p
        ensures RateLimit.InWindow(l.password, Failures(l, es, key), end) <= l.password.maxEvents
      {
        if CanFail(l) {
          SeparateChecksAreBounded(l, es, key, end);
        } else {
          NoFailureCounts(l, es, key, end);
        }
      }
    } else {
      SomebodyIsProper();
      BoundIsReached(l, SOMEBODY, p);
      var es, end :| ReachesBound(l, es, KeyOf(SOMEBODY), end, p);
    }
  }

  // ----- failures that a success has made the limiter forget

  // m times, a failed check and then a successful one.
  lemma {:induction false} Alternating(l: GateLimits, call: Call, k: nat, m: nat, now: int) returns (es: seq<Event>)
    requires ProperCall(call) && l.join.maxEvents >= 1 && (k - 1) * l.join.windowMs <= now
    requires 2 * m <= k && l.password.maxEvents >= 2
    ensures Trace(l, es, KeyOf(call), now, [], RateLimit.Copies(now, m), 1) && After(l, es).calls == Crowd(call, k, 2 * m, 2 * m)
  {
    if m == 0 {
      es := Arrivals(l, call, k, 1);
      TraceLater(l, es, KeyOf(call), (k - 1) * l.join.windowMs, now, 1);
      assert RateLimit.Copies(now, 0) == [];
    } else {
      var before := Alternating(l, call, k, m - 1, now);
      es := FailAndSucceed(l, before, call, k, 2 * m - 2, now, RateLimit.Copies(now, m - 1));
      RateLimit.CopiesAppend(now, m - 1);
    }
  }

  lemma FailAndSucceed(l: GateLimits, es: seq<Event>, call: Call, k: nat, i: nat, now: int, all: seq<int>) returns (next: seq<Event>)
    requires Trace(l, es, KeyOf(call), now, [], all, 1) && After(l, es).calls == Crowd(call, k, i, i)
    requires i + 2 <= k && l.password.maxEvents >= 2
    ensures Trace(l, next, KeyOf(call), now, [], all + [now], 1) && After(l, next).calls == Crowd(call, k, i + 2, i + 2)
  {
    var failed := CheckOne(l, es, call, k, i, false, now, [], all);
    assert [] + [now] == [now];
    next := CheckOne(l, failed, call, k, i + 1, true, now, [now], all + [now]);
  }

  // One check, from its start to its end.
  lemma CheckOne(l: GateLimits, es: seq<Event>, call: Call, k: nat, i: nat, accepted: bool, now: int, failures: seq<int>,
                 all: seq<int>)
      returns (next: seq<Event>)
    requires Trace(l, es, KeyOf(call), now, failures, all, 1) && After(l, es).calls == Crowd(call, k, i, i)
    requires i < k && |failures| < l.password.maxEvents
    ensures Trace(l, next, KeyOf(call), now, if accepted then [] else failures + [now], if accepted then all else all + [now], 1)
    ensures After(l, next).calls == Crowd(call, k, i + 1, i + 1)
  {
    var asked := es + [SettingsRead(i, None, now)];
    OneAsked(l, es, call, k, i, i, now, failures, all, 1, asked);
    next := asked + [Verified(i, accepted, None, now)];
    OneEnded(l, asked, call, k, i + 1, i, accepted, now, failures, all, 1, next);
  }

  ghost predicate ReachesInAll(l: GateLimits, es: seq<Event>, key: string, end: int, p: nat, count: int) {
    Possible(l, es) && ClockRuns(es) && Peak(l, es, key) <= p
    && RateLimit.InWindow(l.password, AllFailures(l, es, key), end) == count
  }

  /** Without any overlap, successes in between let any number of failures into one window, unless
      the limiter is for one. */
  lemma SuccessesOvershoot(l: GateLimits, call: Call, m: nat)
    requires ProperCall(call) && l.join.maxEvents >= 1 && l.password.maxEvents >= 2 && l.password.windowMs >= 1
    ensures exists es, end :: ReachesInAll(l, es, KeyOf(call), end, 1, m)
  {
    var now := (2 * m - 1) * l.join.windowMs;
    var es := Alternating(l, call, 2 * m, m, now);
    RateLimit.CopiesInWindow(l.password, now, m);
    assert ReachesInAll(l, es, KeyOf(call), now, 1, m);
  }

  // At `now` and later, what is forgotten is out of the window, and a check begins only when the
  // window is empty.
  ghost predicate NothingForgotten(l: GateLimits, calls: map<nat, InFlight>, key: string, now: int, failures: seq<int>,
                                   all: seq<int>)
  {
    var cutoff := now - l.password.windowMs;
    RateLimit.Since(all, cutoff) == RateLimit.Since(failures, cutoff)
    && (Checking(calls, key) != {} ==> RateLimit.Since(failures, cutoff) == [])
  }

  // A limiter for one lets a check in only when no failure of the window is left, forgotten or not.
  lemma {:induction false} NothingToForget(l: GateLimits, es: seq<Event>, key: string, now: int)
    requires Possible(l, es) && ClockRuns(es) && NotAfter(es, now) && l.password.maxEvents == 1 && Peak(l, es, key) <= 1
    ensures NothingForgotten(l, After(l, es).calls, key, now, Failures(l, es, key), AllFailures(l, es, key))
    decreases |es|
  {
    if es == [] {
      assert Checking(After(l, es).calls, key) == {};
    } else {
      var before, last := es[..|es| - 1], es[|es| - 1];
      NothingToForget(l, before, key, now);
      NothingForgottenBy(l, before, key, now, last);
    }
  }

  lemma NothingForgottenBy(l: GateLimits, es: seq<Event>, key: string, now: int, e: Event)
    requires Possible(l, es) && ClockRuns(es) && NotAfter(es, e.now) && e.now <= now && Enabled(After(l, es), e)
    requires l.password.maxEvents == 1 && Peak(l, es, key) <= 1
    requires NothingForgotten(l, After(l, es).calls, key, now, Failures(l, es, key), AllFailures(l, es, key))
    ensures var g := After(l, es);
      NothingForgotten(l, Apply(l, g, e).calls, key, now, FailuresAfter(g, e, Failures(l, es, key), key),
                       if Fails(g, e, key) then AllFailures(l, es, key) + [e.now] else AllFailures(l, es, key))
  {
    NextCallIsNew(l, es);
    AtMostOneChecked(l, es, key);
    if RateLimit.Allowed(l.password, After(l, es).passwordAttempts, key, e.now) {
      NothingLeft(l, es, key, e.now, now);
    }
    ForgottenStep(l, After(l, es), e, key, now, Failures(l, es, key), AllFailures(l, es, key));
  }

  lemma AtMostOneChecked(l: GateLimits, es: seq<Event>, key: string)
    requires Possible(l, es) && Peak(l, es, key) <= 1
    ensures |Checking(After(l, es).calls, key)| <= 1
  {
    if es == [] {
      assert Checking(After(l, es).calls, key) == {};
    }
  }

  lemma NothingLeft(l: GateLimits, es: seq<Event>, key: string, now: int, later: int)
    requires Possible(l, es) && ClockRuns(es) && NotAfter(es, now) && now <= later && l.password.maxEvents == 1
    requires RateLimit.Allowed(l.password, After(l, es).passwordAttempts, key, now)
    ensures RateLimit.Since(Failures(l, es, key), later - l.password.windowMs) == []
  {
    TableIsFailures(l, es, key, now);
    RateLimit.SinceTwice(Failures(l, es, key), now - l.password.windowMs, later - l.password.windowMs);
  }

  lemma ForgottenStep(l: GateLimits, g: Gate, e: Event, key: string, now: int, failures: seq<int>, all: seq<int>)
    requires Enabled(g, e) && g.steps !in g.calls && |Checking(g.calls, key)| <= 1
    requires NothingForgotten(l, g.calls, key, now, failures, all)
    requires RateLimit.Allowed(l.password, g.passwordAttempts, key, e.now) ==>
               RateLimit.Since(failures, now - l.password.windowMs) == []
    ensures NothingForgotten(l, Apply(l, g, e).calls, key, now, FailuresAfter(g, e, failures, key),
                             if Fails(g, e, key) then all + [e.now] else all)
  {
    CheckingStep(l, g, e, key);
    RateLimit.SinceAppend(all, e.now, now - l.password.windowMs);
    RateLimit.SinceAppend(failures, e.now, now - l.password.windowMs);
    if e.Verified? && KeyOf(g.calls[e.call].call) == key {
      OnlyElement(Checking(g.calls, key), e.call);
    }
  }

  lemma OnlyElement(s: set<nat>, c: nat)
    requires c in s && |s| <= 1
    ensures s - {c} == {}
  {
    assert |s - {c}| == |s| - 1;
  }

  lemma {:induction false} SingleTriesAreBounded(l: GateLimits, es: seq<Event>, key: string, end: int)
    requires Possible(l, es) && ClockRuns(es) && l.password.maxEvents == 1 && Peak(l, es, key) <= 1
    ensures RateLimit.InWindow(l.password, AllFailures(l, es, key), end) <= 1
    decreases |es|
  {
    if es != [] {
      var before, last := es[..|es| - 1], es[|es| - 1];
      SingleTriesAreBounded(l, before, key, end);
      if last.now <= end {
        SingleTriesSoFar(l, es, key, end);
      } else {
        LaterFailuresDoNotCount(l, es, key, end);
      }
    }
  }

  lemma LaterFailuresDoNotCount(l: GateLimits, es: seq<Event>, key: string, end: int)
    requires Possible(l, es) && es != [] && es[|es| - 1].now > end
    ensures RateLimit.InWindow(l.password, AllFailures(l, es, key), end)
            == RateLimit.InWindow(l.password, AllFailures(l, es[..|es| - 1], key), end)
  {
    RateLimit.InWindowAppend(l.password, AllFailures(l, es[..|es| - 1], key), es[|es| - 1].now, end);
  }

  lemma SingleTriesSoFar(l: GateLimits, es: seq<Event>, key: string, end: int)
    requires Possible(l, es) && ClockRuns(es) && NotAfter(es, end) && l.password.maxEvents == 1 && Peak(l, es, key) <= 1
    ensures RateLimit.InWindow(l.password, AllFailures(l, es, key), end) <= 1
  {
    NothingToForget(l, es, key, end);
    FailuresArePast(l, es, key, end);
    AllFailuresArePast(l, es, key, end);
    SameWindow(l.password, Failures(l, es, key), AllFailures(l, es, key), end);
    SeparateChecksAreBounded(l, es, key, end);
  }

  lemma SameWindow(limits: RateLimit.Limits, times: seq<int>, all: seq<int>, end: int)
    requires RateLimit.Before(times, end) && RateLimit.Before(all, end)
    requires RateLimit.Since(all, end - limits.windowMs) == RateLimit.Since(times, end - limits.windowMs)
    ensures RateLimit.InWindow(limits, all, end) == RateLimit.InWindow(limits, times, end)
  {
    RateLimit.WindowIsSince(limits, times, end);
    RateLimit.WindowIsSince(limits, all, end);
  }

  lemma {:induction false} NoCheckNoFailure(l: GateLimits, es: seq<Event>, key: string)
    requires Possible(l, es) && Peak(l, es, key) == 0
    ensures AllFailures(l, es, key) == []
    decreases |es|
  {
    if es != [] {
      var before, last := es[..|es| - 1], es[|es| - 1];
      NoCheckNoFailure(l, before, key);
      NobodyChecked(l, before, key);
      NoCheckToEnd(After(l, before), last, key);
    }
  }

  lemma NoCheckToEnd(g: Gate, e: Event, key: string)
    requires Enabled(g, e) && Checking(g.calls, key) == {}
    ensures !Fails(g, e, key)
  {
    if e.Verified? {
      assert e.call in Checking(g.calls, KeyOf(g.calls[e.call].call));
    }
  }

  lemma NobodyChecked(l: GateLimits, es: seq<Event>, key: string)
    requires Possible(l, es) && Peak(l, es, key) == 0
    ensures Checking(After(l, es).calls, key) == {}
  {
    if es == [] {
      assert Checking(After(l, es).calls, key) == {};
    }
  }

  ghost predicate AllWithinLimit(l: GateLimits, p: nat) {
    forall es, key, end :: Possible(l, es) && ClockRuns(es) && Peak(l, es, key) <= p ==>
      RateLimit.InWindow(l.password, AllFailures(l, es, key), end) <= l.password.maxEvents
  }

  // No checks at all, or one at a time with a limiter for one.
  predicate NeverForgets(l: GateLimits, p: nat) { p == 0 || (p == 1 && l.password.maxEvents == 1) }

  lemma AllAreWithin(l: GateLimits, p: nat, es: seq<Event>, key: string, end: int)
    requires NeverForgets(l, p) || !CanFail(l)
    requires Possible(l, es) && ClockRuns(es) && Peak(l, es, key) <= p
    ensures RateLimit.InWindow(l.password, AllFailures(l, es, key), end) <= l.password.maxEvents
  {
    if !CanFail(l) {
      NoFailureCounts(l, es, key, end);
    } else if p == 0 {
      NoCheckNoFailure(l, es, key);
    } else {
      SingleTriesAreBounded(l, es, key, end);
    }
  }

  /** All failures of a key, forgotten ones included, stay within the limit in all runs in which at
      most p checks overlap, if and only if there are no checks, or one at a time and the limiter is
      for one (or no check can fail at all). */
  lemma SuccessConditionIsExact(l: GateLimits, p: nat)
    ensures AllWithinLimit(l, p) <==> NeverForgets(l, p) || !CanFail(l)
  {
    if NeverForgets(l, p) || !CanFail(l) {
      forall es, key, end | Possible(l, es) && ClockRuns(es) && Peak(l, es, key) <= p
        ensures RateLimit.InWindow(l.password, AllFailures(l, es, key), end) <= l.password.maxEvents
      {
        AllAreWithin(l, p, es, key, end);
      }
    } else {
      AllOvershoot(l, p);
    }
  }

  lemma AllOvershoot(l: GateLimits, p: nat)
    requires CanFail(l) && !NeverForgets(l, p)
    ensures !AllWithinLimit(l, p)
  {
    SomebodyIsProper();
    if l.password.maxEvents >= 2 {
      SuccessesOvershoot(l, SOMEBODY, l.password.maxEvents + 1);
      var es, end :| ReachesInAll(l, es, KeyOf(SOMEBODY), end, 1, l.password.maxEvents + 1);
    } else {
      OverlapsInAll(l, SOMEBODY, p);
      var es, end :| ReachesInAll(l, es, KeyOf(SOMEBODY), end, p, p);
    }
  }

  // p checks that overlap and fail, and nothing to forget.
  lemma OverlapsInAll(l: GateLimits, call: Call, p: nat)
    requires ProperCall(call) && CanFail(l)
    ensures exists es, end :: ReachesInAll(l, es, KeyOf(call), end, p, p)
  {
    var now := (p - 1) * l.join.windowMs;
    var es := Failing(l, call, p, 0, p, now, p);
    RateLimit.CopiesInWindow(l.password, now, p);
    assert ReachesInAll(l, es, KeyOf(call), now, p, p);
  }
}
