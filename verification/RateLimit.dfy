// The sliding-window limiter of the signaling server: at most `maxEvents` recorded events per key
// in any window of `windowMs`.

module RateLimit {

  type Events = map<string, seq<int>>

  datatype Limits = Limits(maxEvents: nat, windowMs: nat)

  // ----- what the methods compute

  // The timestamps later than a cutoff, in order.
  function Since(times: seq<int>, cutoff: int): seq<int> {
    if times == [] then []
    else
      var rest := Since(times[..|times| - 1], cutoff);
      if times[|times| - 1] > cutoff then rest + [times[|times| - 1]] else rest
  }

  function Stored(events: Events, key: string): seq<int> { if key in events then events[key] else [] }

  // A key without events has no entry.
  function Store(events: Events, key: string, times: seq<int>): Events {
    if times == [] then events - {key} else events[key := times]
  }

  function Active(limits: Limits, events: Events, key: string, now: int): seq<int> {
    Since(Stored(events, key), now - limits.windowMs)
  }

  function Pruned(limits: Limits, events: Events, key: string, now: int): Events {
    Store(events, key, Active(limits, events, key, now))
  }

  function Recorded(limits: Limits, events: Events, key: string, now: int): Events {
    events[key := Active(limits, events, key, now) + [now]]
  }

  predicate Allowed(limits: Limits, events: Events, key: string, now: int) {
    |Active(limits, events, key, now)| < limits.maxEvents
  }

  class SlidingWindowRateLimiter {
    var events: Events
    const limits: Limits

    constructor (maxEvents: nat, windowMs: nat)
      ensures events == map[] && limits == Limits(maxEvents, windowMs)
    {
      events := map[];
      limits := Limits(maxEvents, windowMs);
    }

    method GetActiveEvents(key: string, now: int) returns (active: seq<int>)
      modifies this
      ensures active == Active(limits, old(events), key, now)
      ensures events == Pruned(limits, old(events), key, now)
    {
      var cutoff := now - limits.windowMs;
      active := Since(if key in events then events[key] else [], cutoff);
      if |active| == 0 {
        events := events - {key};
        return [];
      }
      events := events[key := active];
    }

    method IsAllowed(key: string, now: int) returns (allowed: bool)
      modifies this
      ensures allowed == Allowed(limits, old(events), key, now)
      ensures events == Pruned(limits, old(events), key, now)
    {
      var active := GetActiveEvents(key, now);
      allowed := |active| < limits.maxEvents;
    }

    method Record(key: string, now: int)
      modifies this
      ensures events == Recorded(limits, old(events), key, now)
    {
      var active := GetActiveEvents(key, now);
      events := events[key := active + [now]];
    }

    method Consume(key: string, now: int) returns (accepted: bool)
      modifies this
      ensures (events, accepted) == Step(limits, old(events), Call.Consume(key, now))
    {
      var allowed := IsAllowed(key, now);
      if !allowed {
        return false;
      }
      PruneTwice(limits, old(events), key, now);
      Record(key, now);
      accepted := true;
    }

    method Reset(key: string)
      modifies this
      ensures events == old(events) - {key}
    {
      events := events - {key};
    }
  }

  lemma PruneTwice(limits: Limits, events: Events, key: string, now: int)
    ensures Active(limits, Pruned(limits, events, key, now), key, now) == Active(limits, events, key, now)
    ensures Recorded(limits, Pruned(limits, events, key, now), key, now) == Recorded(limits, events, key, now)
  {
    SinceTwice(Stored(events, key), now - limits.windowMs, now - limits.windowMs);
  }

  // ----- runs

  datatype Call = Consume(key: string, now: int) | IsAllowed(key: string, now: int)

  // The new table, and whether the call recorded an event.
  function Step(limits: Limits, events: Events, call: Call): (Events, bool) {
    var allowed := Allowed(limits, events, call.key, call.now);
    if allowed && call.Consume? then (Recorded(limits, events, call.key, call.now), true)
    else (Pruned(limits, events, call.key, call.now), false)
  }

  function After(limits: Limits, calls: seq<Call>): Events {
    if calls == [] then map[]
    else Step(limits, After(limits, calls[..|calls| - 1]), calls[|calls| - 1]).0
  }

  predicate Accepts(limits: Limits, calls: seq<Call>, call: Call) { Step(limits, After(limits, calls), call).1 }

  // The full history of a key: the times of all its accepted events.
  function History(limits: Limits, calls: seq<Call>, key: string): seq<int> {
    if calls == [] then []
    else
      var before, last := calls[..|calls| - 1], calls[|calls| - 1];
      if last.key == key && Accepts(limits, before, last) then History(limits, before, key) + [last.now]
      else History(limits, before, key)
  }

  // How many of these times lie in (end - windowMs, end].
  function InWindow(limits: Limits, times: seq<int>, end: int): nat {
    if times == [] then 0
    else
      InWindow(limits, times[..|times| - 1], end)
      + if end - limits.windowMs < times[|times| - 1] <= end then 1 else 0
  }

  predicate ClockAscends(calls: seq<Call>) { forall i, j :: 0 <= i < j < |calls| ==> calls[i].now <= calls[j].now }

  lemma {:induction false} SinceTwice(times: seq<int>, early: int, late: int)
    requires early <= late
    ensures Since(Since(times, early), late) == Since(times, late)
  {
    if times != [] {
      var front, last := times[..|times| - 1], times[|times| - 1];
      SinceTwice(front, early, late);
      var rest := Since(front, early);
      assert (rest + [last])[..|rest|] == rest;
    }
  }

  lemma SinceAppend(times: seq<int>, t: int, cutoff: int)
    ensures Since(times + [t], cutoff) == if t > cutoff then Since(times, cutoff) + [t] else Since(times, cutoff)
  {
    assert (times + [t])[..|times|] == times;
  }

  predicate Before(times: seq<int>, now: int) { forall i :: 0 <= i < |times| ==> times[i] <= now }

  lemma {:induction false} HistoryIsPast(limits: Limits, calls: seq<Call>, key: string, end: int)
    requires forall i :: 0 <= i < |calls| ==> calls[i].now <= end
    ensures Before(History(limits, calls, key), end)
  {
    if calls != [] {
      HistoryIsPast(limits, calls[..|calls| - 1], key, end);
    }
  }

  /** The pruned list says exactly what the full history says about every later window. */
  lemma {:induction false} StoredIsHistory(limits: Limits, calls: seq<Call>, key: string, now: int)
    requires ClockAscends(calls) && forall i :: 0 <= i < |calls| ==> calls[i].now <= now
    ensures Active(limits, After(limits, calls), key, now) == Since(History(limits, calls, key), now - limits.windowMs)
    decreases |calls|
  {
    if calls != [] {
      var before, last := calls[..|calls| - 1], calls[|calls| - 1];
      StoredIsHistory(limits, before, key, now);
      if last.key == key && Accepts(limits, before, last) {
        RecordingShows(limits, After(limits, before), key, last.now, now);
        SinceAppend(History(limits, before, key), last.now, now - limits.windowMs);
      } else {
        OtherStepsHide(limits, After(limits, before), last, key, now);
      }
    }
  }

  lemma RecordingShows(limits: Limits, events: Events, key: string, at: int, now: int)
    requires at <= now
    ensures Active(limits, Recorded(limits, events, key, at), key, now)
            == if at > now - limits.windowMs then Active(limits, events, key, now) + [at] else Active(limits, events, key, now)
  {
    PrunedThenExtended(Stored(events, key), at - limits.windowMs, at, now - limits.windowMs);
  }

  lemma PrunedThenExtended(times: seq<int>, early: int, t: int, late: int)
    requires early <= late
    ensures Since(Since(times, early) + [t], late) == if t > late then Since(times, late) + [t] else Since(times, late)
  {
    SinceTwice(times, early, late);
    SinceAppend(Since(times, early), t, late);
  }

  lemma OtherStepsHide(limits: Limits, events: Events, call: Call, key: string, now: int)
    requires call.now <= now && (call.key == key ==> !Step(limits, events, call).1)
    ensures Active(limits, Step(limits, events, call).0, key, now) == Active(limits, events, key, now)
  {
    if call.key == key {
      SinceTwice(Stored(events, key), call.now - limits.windowMs, now - limits.windowMs);
    }
  }

  lemma {:induction false} SinceIsShorter(times: seq<int>, cutoff: int)
    ensures |Since(times, cutoff)| <= |times|
  {
    if times != [] {
      SinceIsShorter(times[..|times| - 1], cutoff);
    }
  }

  lemma {:induction false} WindowIsSince(limits: Limits, times: seq<int>, now: int)
    requires Before(times, now)
    ensures InWindow(limits, times, now) == |Since(times, now - limits.windowMs)|
  {
    if times != [] {
      WindowIsSince(limits, times[..|times| - 1], now);
    }
  }

  // No later window sees more of the past than the one that ends now.
  lemma {:induction false} LaterWindow(limits: Limits, times: seq<int>, now: int, end: int)
    requires now <= end && Before(times, now)
    ensures InWindow(limits, times, end) <= InWindow(limits, times, now)
  {
    if times != [] {
      LaterWindow(limits, times[..|times| - 1], now, end);
    }
  }

  /** A call is let through exactly when fewer than `maxEvents` accepted events lie in the window
      that ends with it. */
  lemma AcceptedExactlyBelowLimit(limits: Limits, calls: seq<Call>, key: string, now: int)
    requires ClockAscends(calls) && forall i :: 0 <= i < |calls| ==> calls[i].now <= now
    ensures Accepts(limits, calls, Consume(key, now)) <==> InWindow(limits, History(limits, calls, key), now) < limits.maxEvents
  {
    StoredIsHistory(limits, calls, key, now);
    HistoryIsPast(limits, calls, key, now);
    WindowIsSince(limits, History(limits, calls, key), now);
  }

  /** No window ever holds more than `maxEvents` accepted events of a key. */
  lemma {:induction false} WindowBound(limits: Limits, calls: seq<Call>, key: string, end: int)
    requires ClockAscends(calls)
    ensures InWindow(limits, History(limits, calls, key), end) <= limits.maxEvents
    decreases |calls|
  {
    if calls != [] {
      var before, last := calls[..|calls| - 1], calls[|calls| - 1];
      var past := History(limits, before, key);
      WindowBound(limits, before, key, end);
      if last.key == key && Accepts(limits, before, last) {
        assert (past + [last.now])[..|past|] == past;
        if last.now <= end {
          HistoryIsPast(limits, before, key, last.now);
          LaterWindow(limits, past, last.now, end);
          AcceptedExactlyBelowLimit(limits, before, key, last.now);
        }
      }
    }
  }

  /** So a refused call has exactly `maxEvents` events in its window. */
  lemma RefusedExactlyAtLimit(limits: Limits, calls: seq<Call>, key: string, now: int)
    requires ClockAscends(calls) && forall i :: 0 <= i < |calls| ==> calls[i].now <= now
    ensures !Accepts(limits, calls, Consume(key, now)) <==> InWindow(limits, History(limits, calls, key), now) == limits.maxEvents
  {
    AcceptedExactlyBelowLimit(limits, calls, key, now);
    WindowBound(limits, calls, key, now);
  }

  // The table keeps no empty lists, so it shrinks when keys fall silent.
  lemma {:induction false} NoEmptyLists(limits: Limits, calls: seq<Call>, key: string)
    ensures key in After(limits, calls) ==> After(limits, calls)[key] != []
  {
    if calls != [] {
      NoEmptyLists(limits, calls[..|calls| - 1], key);
    }
  }

  // ----- where the bound needs an ascending clock

  function Copies(t: int, n: nat): seq<int> { seq(n, _ => t) }

  lemma {:induction false} SinceAll(times: seq<int>, cutoff: int)
    requires forall i :: 0 <= i < |times| ==> times[i] > cutoff
    ensures Since(times, cutoff) == times
  {
    if times != [] {
      SinceAll(times[..|times| - 1], cutoff);
      assert times == times[..|times| - 1] + [times[|times| - 1]];
    }
  }

  lemma {:induction false} SinceNone(times: seq<int>, cutoff: int)
    requires Before(times, cutoff)
    ensures Since(times, cutoff) == []
  {
    if times != [] {
      SinceNone(times[..|times| - 1], cutoff);
    }
  }

  lemma {:induction false} CopiesInWindow(limits: Limits, t: int, n: nat)
    requires limits.windowMs >= 1
    ensures InWindow(limits, Copies(t, n), t) == n
  {
    if n > 0 {
      CopiesInWindow(limits, t, n - 1);
      assert Copies(t, n)[..n - 1] == Copies(t, n - 1);
    }
  }

  lemma InWindowAppend(limits: Limits, times: seq<int>, t: int, end: int)
    ensures InWindow(limits, times + [t], end) == InWindow(limits, times, end) + if end - limits.windowMs < t <= end then 1 else 0
  {
    assert (times + [t])[..|times|] == times;
  }

  // One accepted call more.
  lemma OneMore(limits: Limits, calls: seq<Call>, call: Call, stored: seq<int>, active: seq<int>, next: seq<Call>)
    requires call.Consume? && Stored(After(limits, calls), call.key) == stored && next == calls + [call]
    requires Since(stored, call.now - limits.windowMs) == active && |active| < limits.maxEvents
    ensures Stored(After(limits, next), call.key) == active + [call.now]
    ensures History(limits, next, call.key) == History(limits, calls, call.key) + [call.now]
  {
    assert next[..|next| - 1] == calls;
  }

  function Repeated(key: string, t: int, n: nat): seq<Call> { seq(n, _ => Consume(key, t)) }

  lemma {:induction false} RepeatedIsAccepted(limits: Limits, key: string, t: int, n: nat)
    requires n <= limits.maxEvents && limits.windowMs >= 1
    ensures Stored(After(limits, Repeated(key, t, n)), key) == Copies(t, n)
    ensures History(limits, Repeated(key, t, n), key) == Copies(t, n)
  {
    if n > 0 {
      RepeatedIsAccepted(limits, key, t, n - 1);
      SinceAll(Copies(t, n - 1), t - limits.windowMs);
      CopiesAppend(t, n - 1);
      OneMore(limits, Repeated(key, t, n - 1), Consume(key, t), Copies(t, n - 1), Copies(t, n - 1), Repeated(key, t, n));
    }
  }

  lemma CopiesAppend(t: int, n: nat)
    ensures Copies(t, n) + [t] == Copies(t, n + 1)
  {
  }

  // As many calls as allowed at t, one a window later, and, the clock set back, one more at t.
  function SetBack(limits: Limits, key: string, t: int): seq<Call> {
    Repeated(key, t, limits.maxEvents) + [Consume(key, t + limits.windowMs)] + [Consume(key, t)]
  }

  /** With a clock that is set back, every limiter for two or more events lets one too many into a
      window: the later call has pruned the list. */
  lemma ClockSetBack(limits: Limits, key: string, t: int)
    requires limits.maxEvents >= 2 && limits.windowMs >= 1
    ensures InWindow(limits, History(limits, SetBack(limits, key, t), key), t) == limits.maxEvents + 1
  {
    var n := limits.maxEvents;
    var first := Repeated(key, t, n);
    RepeatedIsAccepted(limits, key, t, n);
    LastTwo(limits, first, first + [Consume(key, t + limits.windowMs)], SetBack(limits, key, t), key, t, n);
    WindowSetBack(limits, t, n);
  }

  lemma LastTwo(limits: Limits, first: seq<Call>, second: seq<Call>, third: seq<Call>, key: string, t: int, n: nat)
    requires limits.maxEvents >= 2 && limits.windowMs >= 1
    requires Stored(After(limits, first), key) == History(limits, first, key) == Copies(t, n)
    requires second == first + [Consume(key, t + limits.windowMs)] && third == second + [Consume(key, t)]
    ensures History(limits, third, key) == Copies(t, n) + [t + limits.windowMs] + [t]
  {
    LateCall(limits, first, second, key, t, n);
    EarlyCall(limits, second, third, key, t + limits.windowMs, t);
  }

  lemma LateCall(limits: Limits, first: seq<Call>, second: seq<Call>, key: string, t: int, n: nat)
    requires limits.maxEvents >= 1 && Stored(After(limits, first), key) == Copies(t, n)
    requires second == first + [Consume(key, t + limits.windowMs)]
    ensures Stored(After(limits, second), key) == [t + limits.windowMs]
    ensures History(limits, second, key) == History(limits, first, key) + [t + limits.windowMs]
  {
    SinceNone(Copies(t, n), t);
    OneMore(limits, first, Consume(key, t + limits.windowMs), Copies(t, n), [], second);
  }

  lemma EarlyCall(limits: Limits, second: seq<Call>, third: seq<Call>, key: string, late: int, t: int)
    requires limits.maxEvents >= 2 && late > t - limits.windowMs && Stored(After(limits, second), key) == [late]
    requires third == second + [Consume(key, t)]
    ensures History(limits, third, key) == History(limits, second, key) + [t]
  {
    SinceAll([late], t - limits.windowMs);
    OneMore(limits, second, Consume(key, t), [late], [late], third);
  }

  lemma WindowSetBack(limits: Limits, t: int, n: nat)
    requires limits.windowMs >= 1
    ensures InWindow(limits, Copies(t, n) + [t + limits.windowMs] + [t], t) == n + 1
  {
    InWindowAppend(limits, Copies(t, n), t + limits.windowMs, t);
    InWindowAppend(limits, Copies(t, n) + [t + limits.windowMs], t, t);
    CopiesInWindow(limits, t, n);
  }

  predicate ConsumesOnly(calls: seq<Call>) { forall i :: 0 <= i < |calls| ==> calls[i].Consume? }

  // Accepted events are at least a window apart.
  predicate Spaced(limits: Limits, times: seq<int>) {
    forall i, j :: 0 <= i < j < |times| ==> times[j] >= times[i] + limits.windowMs
  }

  lemma {:induction false} SpacedWindow(limits: Limits, times: seq<int>, end: int)
    requires Spaced(limits, times)
    ensures InWindow(limits, times, end) <= 1
  {
    if times != [] {
      var front, last := times[..|times| - 1], times[|times| - 1];
      SpacedWindow(limits, front, end);
      if end - limits.windowMs < last <= end {
        assert Before(front, last - limits.windowMs);
        EarlierIsOutside(limits, front, last - limits.windowMs, end);
      }
    }
  }

  lemma {:induction false} EarlierIsOutside(limits: Limits, times: seq<int>, bound: int, end: int)
    requires Before(times, bound) && bound <= end - limits.windowMs
    ensures InWindow(limits, times, end) == 0
  {
    if times != [] {
      EarlierIsOutside(limits, times[..|times| - 1], bound, end);
    }
  }

  function LastOnly(times: seq<int>): seq<int> { if times == [] then [] else [times[|times| - 1]] }

  predicate KeepsLast(limits: Limits, stored: seq<int>, times: seq<int>) {
    Spaced(limits, times) && stored == LastOnly(times)
  }

  // A limiter for one keeps exactly the last accepted event, whatever the clock does.
  lemma {:induction false} OneAtATime(limits: Limits, calls: seq<Call>, key: string)
    requires ConsumesOnly(calls) && limits.maxEvents == 1
    ensures KeepsLast(limits, Stored(After(limits, calls), key), History(limits, calls, key))
  {
    if calls != [] {
      var before, last := calls[..|calls| - 1], calls[|calls| - 1];
      OneAtATime(limits, before, key);
      OneStep(limits, After(limits, before), last, History(limits, before, key), key);
    }
  }

  lemma OneStep(limits: Limits, events: Events, call: Call, times: seq<int>, key: string)
    requires call.Consume? && limits.maxEvents == 1 && KeepsLast(limits, Stored(events, key), times)
    ensures var (after, accepted) := Step(limits, events, call);
      KeepsLast(limits, Stored(after, key), if key == call.key && accepted then times + [call.now] else times)
  {
    if key == call.key {
      OneConsumed(limits, times, call.now);
    }
  }

  lemma OneConsumed(limits: Limits, times: seq<int>, now: int)
    requires Spaced(limits, times)
    ensures var active := Since(LastOnly(times), now - limits.windowMs);
      if active == [] then KeepsLast(limits, [now], times + [now]) else active == LastOnly(times)
  {
    KeptOrDropped(times, now - limits.windowMs);
    if times == [] || times[|times| - 1] <= now - limits.windowMs {
      SpacedAppend(limits, times, now);
    }
  }

  lemma KeptOrDropped(times: seq<int>, cutoff: int)
    ensures Since(LastOnly(times), cutoff) == if times != [] && times[|times| - 1] > cutoff then LastOnly(times) else []
  {
    if times != [] && times[|times| - 1] > cutoff {
      SinceAll(LastOnly(times), cutoff);
    } else {
      SinceNone(LastOnly(times), cutoff);
    }
  }

  lemma SpacedAppend(limits: Limits, times: seq<int>, t: int)
    requires Spaced(limits, times) && (times == [] || times[|times| - 1] <= t - limits.windowMs)
    ensures Spaced(limits, times + [t])
  {
    forall i | 0 <= i < |times|
      ensures times[i] <= times[|times| - 1]
    {
    }
  }

  lemma {:induction false} NothingAccepted(limits: Limits, calls: seq<Call>, key: string)
    requires limits.maxEvents == 0
    ensures History(limits, calls, key) == []
  {
    if calls != [] {
      NothingAccepted(limits, calls[..|calls| - 1], key);
    }
  }

  ghost predicate HoldsForEveryClock(limits: Limits) {
    forall calls, key, end :: ConsumesOnly(calls) ==> InWindow(limits, History(limits, calls, key), end) <= limits.maxEvents
  }

  lemma BoundForEveryClock(limits: Limits, calls: seq<Call>, key: string, end: int)
    requires ConsumesOnly(calls) && (limits.maxEvents <= 1 || limits.windowMs == 0)
    ensures InWindow(limits, History(limits, calls, key), end) <= limits.maxEvents
  {
    if limits.windowMs == 0 {
      NoWindow(limits, History(limits, calls, key), end);
    } else if limits.maxEvents == 0 {
      NothingAccepted(limits, calls, key);
    } else {
      OneAtATime(limits, calls, key);
      SpacedWindow(limits, History(limits, calls, key), end);
    }
  }

  lemma {:induction false} NoWindow(limits: Limits, times: seq<int>, end: int)
    requires limits.windowMs == 0
    ensures InWindow(limits, times, end) == 0
  {
    if times != [] {
      NoWindow(limits, times[..|times| - 1], end);
    }
  }

  /** The bound needs no condition on the clock exactly for limiters for at most one event, and for
      empty windows. */
  lemma ClockConditionIsExact(limits: Limits)
    ensures HoldsForEveryClock(limits) <==> limits.maxEvents <= 1 || limits.windowMs == 0
  {
    if limits.maxEvents <= 1 || limits.windowMs == 0 {
      forall calls, key, end | ConsumesOnly(calls)
        ensures InWindow(limits, History(limits, calls, key), end) <= limits.maxEvents
      {
        BoundForEveryClock(limits, calls, key, end);
      }
    } else {
      ClockSetBack(limits, "", 0);
      assert ConsumesOnly(SetBack(limits, "", 0));
    }
  }
}
