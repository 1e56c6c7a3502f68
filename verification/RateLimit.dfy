// The sliding-window rate limiter, with its sweeping, pruning and eviction,
// against a limiter that keeps every accepted request for ever.
module RateLimit {
  import opened Wrappers
  import opened Collections
  import Text

  // Instants and durations in nanoseconds; 0 is the smallest instant.
  const SECOND: int := 1_000_000_000
  const SWEEP_INTERVAL: int := 300 * SECOND

  type Times = seq<int>
  type Requests = map<string, Times>

  // Timestamps strictly after the cutoff (`retain`).
  function Recent(times: Times, cutoff: int): (r: Times)
    ensures |r| <= |times|
  {
    if times == [] then []
    else if times[0] > cutoff then [times[0]] + Recent(times[1..], cutoff)
    else Recent(times[1..], cutoff)
  }

  function Get(requests: Requests, key: string): Times {
    if key in requests then requests[key] else []
  }

  // `prune_stale`.
  function Prune(requests: Requests, cutoff: int): Requests {
    map k | k in requests && Recent(requests[k], cutoff) != [] :: Recent(requests[k], cutoff)
  }

  datatype Config = Config(limit: nat, window: int, maxKeys: nat) {
    predicate Valid() {
      window >= 0 && maxKeys >= 1
    }
  }

  datatype State = State(requests: Requests, lastSweep: int)

  // One call of `allow`: `now` is read before the lock, `clock` under it, and
  // `late` only when `now - window` is not representable.
  datatype Call = Call(key: string, now: int, late: int, clock: int)

  function Cutoff(c: Config, call: Call): int {
    if call.now >= c.window then call.now - c.window else call.late
  }

  // The periodic sweep.
  function Swept(c: Config, s: State, call: Call): State {
    if call.clock - s.lastSweep >= SWEEP_INTERVAL then State(Prune(s.requests, Cutoff(c, call)), call.now) else s
  }

  predicate UnderPressure(c: Config, s: State, key: string) {
    key !in s.requests && |s.requests| >= c.maxKeys
  }

  // Cleanup before a new key is admitted to a full map.
  function Relieved(c: Config, s: State, call: Call): State {
    if UnderPressure(c, s, call.key) then State(Prune(s.requests, Cutoff(c, call)), call.now) else s
  }

  // The map is still full after the cleanup, so one key has to go.
  predicate MustEvict(c: Config, s: State, call: Call) {
    UnderPressure(c, Swept(c, s, call), call.key) && |Relieved(c, Swept(c, s, call), call).requests| >= c.maxKeys
  }

  function Last(times: Times): int
    requires times != []
  {
    times[|times| - 1]
  }

  // The last request of each key, which `min_by_key` compares.
  function LastRequests(requests: Requests): map<string, int> {
    map k | k in requests && requests[k] != [] :: Last(requests[k])
  }

  predicate ValidVictim(c: Config, s: State, call: Call, victim: Option<string>) {
    if MustEvict(c, s, call) then victim.Some? && Oldest(victim.value, LastRequests(Relieved(c, Swept(c, s, call), call).requests))
    else victim.None?
  }

  // The map in which the entry of the key is looked up.
  function Ready(c: Config, s: State, call: Call, victim: Option<string>): State {
    var relieved := Relieved(c, Swept(c, s, call), call);
    relieved.(requests := Without(relieved.requests, victim))
  }

  function Decision(c: Config, s: State, call: Call, victim: Option<string>): bool {
    |Recent(Get(Ready(c, s, call, victim).requests, call.key), Cutoff(c, call))| < c.limit
  }

  function Step(c: Config, s: State, call: Call, victim: Option<string>): State {
    var ready := Ready(c, s, call, victim);
    var entry := Recent(Get(ready.requests, call.key), Cutoff(c, call));
    ready.(requests := ready.requests[call.key := if |entry| < c.limit then entry + [call.now] else entry])
  }

  // ------------------------------------------------------------- the limiter

  // What a retained list keeps.
  lemma {:induction false} RecentIff(times: Times, cutoff: int, t: int)
    ensures t in Recent(times, cutoff) <==> t in times && t > cutoff
  {
    if times != [] {
      RecentIff(times[1..], cutoff, t);
    }
  }

  // `timestamps.retain(..)`.
  method Retain(times: Times, cutoff: int) returns (kept: Times)
    ensures kept == Recent(times, cutoff)
    ensures forall t :: t in kept <==> t in times && t > cutoff
  {
    kept := [];
    for i := 0 to |times|
      invariant kept == Recent(times[..i], cutoff)
    {
      assert times[..i + 1] == times[..i] + [times[i]];
      RecentPush(times[..i], times[i], cutoff);
      if times[i] > cutoff {
        kept := kept + [times[i]];
      }
    }
    assert times[..|times|] == times;
    forall t
      ensures t in kept <==> t in times && t > cutoff
    {
      RecentIff(times, cutoff, t);
    }
  }

  // `requests.retain(..)`: the keys with a request after the cutoff stay, and of
  // each exactly those requests.
  method RetainRecent(requests: Requests, cutoff: int) returns (kept: Requests)
    ensures kept == Prune(requests, cutoff)
    ensures forall k :: k in kept <==> k in requests && exists t :: t in requests[k] && t > cutoff
    ensures forall k, t | k in kept :: t in kept[k] <==> t in requests[k] && t > cutoff
  {
    kept := map[];
    var rest := requests.Keys;
    while rest != {}
      invariant rest <= requests.Keys
      invariant kept == map k | k in requests && k !in rest && Recent(requests[k], cutoff) != [] :: Recent(requests[k], cutoff)
      decreases rest
    {
      var key :| key in rest;
      var timestamps := Retain(requests[key], cutoff);
      if timestamps != [] {
        kept := kept[key := timestamps];
      }
      rest := rest - {key};
    }
    PruneKeeps(requests, cutoff);
  }

  lemma PruneKeeps(requests: Requests, cutoff: int)
    ensures var kept := Prune(requests, cutoff);
            && (forall k :: k in kept <==> k in requests && exists t :: t in requests[k] && t > cutoff)
            && (forall k, t | k in kept :: t in kept[k] <==> t in requests[k] && t > cutoff)
  {
    forall k, t | k in requests
      ensures t in Recent(requests[k], cutoff) <==> t in requests[k] && t > cutoff
    {
      RecentIff(requests[k], cutoff, t);
    }
    forall k | k in requests && Recent(requests[k], cutoff) != []
      ensures exists t :: t in requests[k] && t > cutoff
    {
      assert Recent(requests[k], cutoff)[0] in Recent(requests[k], cutoff);
    }
  }

  class SlidingWindowRateLimiter {
    const config: Config
    var requests: Requests
    var lastSweep: int

    ghost function Abs(): State
      reads this
    {
      State(requests, lastSweep)
    }

    constructor (limit: nat, window: int, maxKeys: nat, now: int)
      requires window >= 0
      ensures config == Config(limit, window, if maxKeys < 1 then 1 else maxKeys)
      ensures Abs() == State(map[], now)
    {
      config := Config(limit, window, if maxKeys < 1 then 1 else maxKeys);
      requests, lastSweep := map[], now;
    }

    method PruneStale(cutoff: int)
      modifies this`requests
      ensures requests == Prune(old(requests), cutoff)
      ensures forall k :: k in requests <==> k in old(requests) && exists t :: t in old(requests)[k] && t > cutoff
      ensures forall k, t | k in requests :: t in requests[k] <==> t in old(requests)[k] && t > cutoff
    {
      requests := RetainRecent(requests, cutoff);
    }

    // The periodic sweep and, for a new key in a full map, cleanup and eviction.
    method MakeRoom(call: Call, cutoff: int) returns (ghost victim: Option<string>)
      requires config.Valid() && cutoff == Cutoff(config, call)
      modifies this
      ensures ValidVictim(config, old(Abs()), call, victim)
      ensures Abs() == Ready(config, old(Abs()), call, victim)
    {
      victim := None;
      if call.clock - lastSweep >= SWEEP_INTERVAL {
        PruneStale(cutoff);
        lastSweep := call.now;
      }
      ghost var swept := Abs();
      assert swept == Swept(config, old(Abs()), call);
      if call.key !in requests && |requests| >= config.maxKeys {
        PruneStale(cutoff);
        lastSweep := call.now;
        assert Abs() == Relieved(config, swept, call);
        if |requests| >= config.maxKeys {
          victim := EvictOldest();
        }
      }
    }

    method Allow(call: Call) returns (allowed: bool, ghost victim: Option<string>)
      requires config.Valid()
      modifies this
      ensures config.limit == 0 ==> allowed && Abs() == old(Abs())
      ensures config.limit > 0 ==> ValidVictim(config, old(Abs()), call, victim)
      ensures config.limit > 0 ==> allowed == Decision(config, old(Abs()), call, victim)
      ensures config.limit > 0 ==> Abs() == Step(config, old(Abs()), call, victim)
    {
      victim := None;
      if config.limit == 0 {
        return true, None;
      }
      var cutoff := if call.now >= config.window then call.now - config.window else call.late;
      victim := MakeRoom(call, cutoff);
      ghost var ready := Abs();
      var entry := Retain(if call.key in requests then requests[call.key] else [], cutoff);
      assert entry == Recent(Get(ready.requests, call.key), Cutoff(config, call));
      allowed := |entry| < config.limit;
      requests := requests[call.key := if allowed then entry + [call.now] else entry];
    }

    // The key that `min_by_key` returns is removed.
    method EvictOldest() returns (ghost victim: Option<string>)
      requires requests.Keys != {} && forall k | k in requests :: requests[k] != []
      modifies this`requests
      ensures victim.Some? && Oldest(victim.value, LastRequests(old(requests)))
      ensures requests == Without(old(requests), victim)
    {
      var last := LastRequests(requests);
      assert last.Keys == requests.Keys;
      OldestExists(last);
      var evictKey :| Oldest(evictKey, last);
      requests := requests - {evictKey};
      victim := Some(evictKey);
    }
  }

  // ------------------------------------------------------ the reference limiter

  // Every accepted request of each key; only a capacity eviction forgets a key.
  type History = map<string, Times>

  predicate RefDecision(c: Config, h: History, call: Call) {
    |Recent(Get(h, call.key), call.now - c.window)| < c.limit
  }

  function RefStep(c: Config, h: History, call: Call): History {
    if RefDecision(c, h, call) then h[call.key := Get(h, call.key) + [call.now]] else h
  }

  lemma {:induction false} RecentTwice(times: Times, early: int, late: int)
    requires early <= late
    ensures Recent(Recent(times, early), late) == Recent(times, late)
  {
    if times != [] {
      RecentTwice(times[1..], early, late);
      var tail := Recent(times[1..], early);
      assert times[0] > early ==> ([times[0]] + tail)[1..] == tail;
    }
  }

  lemma {:induction false} RecentPush(times: Times, t: int, cutoff: int)
    ensures Recent(times + [t], cutoff) == if t > cutoff then Recent(times, cutoff) + [t] else Recent(times, cutoff)
  {
    if times == [] {
      assert times + [t] == [t];
    } else {
      assert (times + [t])[1..] == times[1..] + [t] && (times + [t])[0] == times[0];
      RecentPush(times[1..], t, cutoff);
      Text.Associative([times[0]], Recent(times[1..], cutoff), [t]);
    }
  }

  predicate SameRecent(a: Times, b: Times, cutoff: int) {
    Recent(a, cutoff) == Recent(b, cutoff)
  }

  lemma SameRecentLater(a: Times, b: Times, early: int, late: int)
    requires SameRecent(a, b, early) && early <= late
    ensures SameRecent(a, b, late)
  {
    RecentTwice(a, early, late);
    RecentTwice(b, early, late);
  }

  // From `since` on, the limiter and the history see the same recent requests.
  ghost predicate Agree(c: Config, s: State, h: History, since: int) {
    forall key :: SameRecent(Get(s.requests, key), Get(h, key), since - c.window)
  }

  lemma AgreeLater(c: Config, s: State, h: History, since: int, now: int)
    requires Agree(c, s, h, since) && since <= now
    ensures Agree(c, s, h, now)
  {
    forall key
      ensures SameRecent(Get(s.requests, key), Get(h, key), now - c.window)
    {
      SameRecentLater(Get(s.requests, key), Get(h, key), since - c.window, now - c.window);
    }
  }

  lemma PruneIsInvisible(requests: Requests, key: string, cutoff: int)
    ensures Recent(Get(Prune(requests, cutoff), key), cutoff) == Recent(Get(requests, key), cutoff)
  {
    if key in requests {
      RecentTwice(requests[key], cutoff, cutoff);
    }
  }

  // Neither the sweep nor the cleanup under pressure changes what is recent.
  lemma CleanupIsInvisible(c: Config, s: State, call: Call, key: string)
    requires call.now >= c.window
    ensures var cutoff := call.now - c.window;
            Recent(Get(Relieved(c, Swept(c, s, call), call).requests, key), cutoff) == Recent(Get(s.requests, key), cutoff)
  {
    var cutoff := call.now - c.window;
    var swept := Swept(c, s, call);
    PruneIsInvisible(s.requests, key, cutoff);
    PruneIsInvisible(swept.requests, key, cutoff);
  }

  // One step: same decision, and agreement is kept once the evicted key is
  // dropped from the history too.
  lemma StepRefines(c: Config, s: State, h: History, since: int, call: Call, victim: Option<string>)
    requires Agree(c, s, h, since) && since <= call.now && call.now >= c.window >= 0
    ensures var h' := Without(h, victim);
            && Decision(c, s, call, victim) == RefDecision(c, h', call)
            && Agree(c, Step(c, s, call, victim), RefStep(c, h', call), call.now)
  {
    AgreeLater(c, s, h, since, call.now);
    ReadyAgrees(c, s, h, call, victim, call.key);
    var h' := Without(h, victim);
    forall key
      ensures SameRecent(Get(Step(c, s, call, victim).requests, key), Get(RefStep(c, h', call), key), call.now - c.window)
    {
      ReadyAgrees(c, s, h, call, victim, key);
      StepAgrees(c, s, h', call, victim, key);
    }
  }

  lemma ReadyAgrees(c: Config, s: State, h: History, call: Call, victim: Option<string>, key: string)
    requires SameRecent(Get(s.requests, key), Get(h, key), call.now - c.window) && call.now >= c.window >= 0
    ensures SameRecent(Get(Ready(c, s, call, victim).requests, key), Get(Without(h, victim), key), call.now - c.window)
  {
    CleanupIsInvisible(c, s, call, key);
  }

  lemma StepAgrees(c: Config, s: State, h: History, call: Call, victim: Option<string>, key: string)
    requires call.now >= c.window >= 0
    requires SameRecent(Get(Ready(c, s, call, victim).requests, key), Get(h, key), call.now - c.window)
    ensures SameRecent(Get(Step(c, s, call, victim).requests, key), Get(RefStep(c, h, call), key), call.now - c.window)
  {
    var kept := Get(Ready(c, s, call, victim).requests, key);
    if key == call.key {
      EntryAgrees(kept, Get(h, key), call.now, call.now - c.window);
    }
  }

  lemma EntryAgrees(kept: Times, all: Times, now: int, cutoff: int)
    requires SameRecent(kept, all, cutoff)
    ensures SameRecent(Recent(kept, cutoff), all, cutoff)
    ensures SameRecent(Recent(kept, cutoff) + [now], all + [now], cutoff)
  {
    RecentTwice(kept, cutoff, cutoff);
    RecentPush(Recent(kept, cutoff), now, cutoff);
    RecentPush(all, now, cutoff);
  }

  // -------------------------------------------------------------------- runs

  datatype Event = Event(call: Call, victim: Option<string>)

  function Run(c: Config, s: State, events: seq<Event>): State
    decreases |events|
  {
    if events == [] then s else Run(c, Step(c, s, events[0].call, events[0].victim), events[1..])
  }

  function Decisions(c: Config, s: State, events: seq<Event>): seq<bool>
    decreases |events|
  {
    if events == [] then []
    else
      var e := events[0];
      [Decision(c, s, e.call, e.victim)] + Decisions(c, Step(c, s, e.call, e.victim), events[1..])
  }

  // Calls in lock order with nondecreasing clocks that have run for at least one window.
  predicate Legal(c: Config, s: State, events: seq<Event>, since: int)
    decreases |events|
  {
    events == [] ||
    var e := events[0];
    && since <= e.call.now && e.call.now >= c.window
    && ValidVictim(c, s, e.call, e.victim)
    && Legal(c, Step(c, s, e.call, e.victim), events[1..], e.call.now)
  }

  function RefRun(c: Config, h: History, events: seq<Event>): History
    decreases |events|
  {
    if events == [] then h else RefRun(c, RefStep(c, Without(h, events[0].victim), events[0].call), events[1..])
  }

  // Decisions of a limiter that never forgets anything.
  function FullDecisions(c: Config, h: History, events: seq<Event>): seq<bool>
    decreases |events|
  {
    if events == [] then []
    else [RefDecision(c, h, events[0].call)] + FullDecisions(c, RefStep(c, h, events[0].call), events[1..])
  }

  // Main result 1: without a capacity eviction every decision is the decision
  // of the limiter with full history.
  lemma {:induction false} SweepingIsInvisible(c: Config, s: State, h: History, events: seq<Event>, since: int)
    requires c.Valid() && Agree(c, s, h, since) && Legal(c, s, events, since)
    requires forall i | 0 <= i < |events| :: events[i].victim.None?
    ensures Decisions(c, s, events) == FullDecisions(c, h, events)
    decreases |events|
  {
    if events != [] {
      var e := events[0];
      assert e.victim.None?;
      StepRefines(c, s, h, since, e.call, None);
      SweepingIsInvisible(c, Step(c, s, e.call, None), RefStep(c, h, e.call), events[1..], e.call.now);
    }
  }

  // Each accepted request found fewer than `limit` others in the window before it.
  predicate Admissible(c: Config, times: Times)
    decreases |times|
  {
    times == [] ||
    var before, last := times[..|times| - 1], times[|times| - 1];
    && Admissible(c, before)
    && (forall i | 0 <= i < |before| :: before[i] <= last)
    && |Recent(before, last - c.window)| < c.limit
  }

  // Accepted requests in the half-open interval [from, to).
  function Within(times: Times, from: int, to: int): nat {
    if times == [] then 0
    else (if from <= times[0] < to then 1 else 0) + Within(times[1..], from, to)
  }

  lemma {:induction false} WithinPush(times: Times, t: int, from: int, to: int)
    ensures Within(times + [t], from, to) == Within(times, from, to) + (if from <= t < to then 1 else 0)
  {
    if times == [] {
      assert times + [t] == [t];
    } else {
      assert (times + [t])[1..] == times[1..] + [t];
      WithinPush(times[1..], t, from, to);
    }
  }

  lemma {:induction false} WithinIsRecent(times: Times, from: int, to: int, cutoff: int)
    requires cutoff < from
    ensures Within(times, from, to) <= |Recent(times, cutoff)|
  {
    if times != [] {
      WithinIsRecent(times[1..], from, to, cutoff);
    }
  }

  lemma {:induction false} WithinNothing(times: Times, from: int, to: int)
    requires forall i | 0 <= i < |times| :: times[i] < from
    ensures Within(times, from, to) == 0
  {
    if times != [] {
      WithinNothing(times[1..], from, to);
    }
  }

  lemma {:induction false} AdmissibleBoundsWindow(c: Config, times: Times, from: int)
    requires c.window >= 0 && c.limit > 0 && Admissible(c, times)
    ensures Within(times, from, from + c.window) <= c.limit
    decreases |times|
  {
    if times != [] {
      var n := |times| - 1;
      var before, last := times[..n], times[n];
      assert times == before + [last];
      WithinPush(before, last, from, from + c.window);
      if last >= from + c.window {
        AdmissibleBoundsWindow(c, before, from);
      } else if last < from {
        WithinNothing(before, from, from + c.window);
      } else {
        WithinIsRecent(before, from, from + c.window, last - c.window);
      }
    }
  }

  ghost predicate HistoryAdmissible(c: Config, h: History, since: int) {
    forall key | key in h :: Admissible(c, h[key]) && forall i | 0 <= i < |h[key]| :: h[key][i] <= since
  }

  lemma RefStepAdmissible(c: Config, h: History, call: Call, victim: Option<string>, since: int)
    requires HistoryAdmissible(c, h, since) && since <= call.now
    ensures HistoryAdmissible(c, RefStep(c, Without(h, victim), call), call.now)
  {
    var h' := Without(h, victim);
    var h2 := RefStep(c, h', call);
    forall key | key in h2
      ensures Admissible(c, h2[key]) && forall i | 0 <= i < |h2[key]| :: h2[key][i] <= call.now
    {
      if key == call.key && RefDecision(c, h', call) {
        var before := Get(h', key);
        assert h2[key] == before + [call.now];
        assert h2[key][..|h2[key]| - 1] == before;
      } else {
        assert key in h && h2[key] == h[key];
      }
    }
  }

  lemma {:induction false} RefRunAdmissible(c: Config, h: History, events: seq<Event>, s: State, since: int)
    requires HistoryAdmissible(c, h, since) && Legal(c, s, events, since)
    ensures exists t :: HistoryAdmissible(c, RefRun(c, h, events), t)
    decreases |events|
  {
    if events == [] {
      assert HistoryAdmissible(c, RefRun(c, h, events), since);
    } else {
      var e := events[0];
      RefStepAdmissible(c, h, e.call, e.victim, since);
      RefRunAdmissible(c, RefStep(c, Without(h, e.victim), e.call), events[1..], Step(c, s, e.call, e.victim), e.call.now);
      assert RefRun(c, h, events) == RefRun(c, RefStep(c, Without(h, e.victim), e.call), events[1..]);
    }
  }

  // Decisions of the reference that forgets evicted keys: those of the limiter, always.
  function RefDecisions(c: Config, h: History, events: seq<Event>): seq<bool>
    decreases |events|
  {
    if events == [] then []
    else
      var h' := Without(h, events[0].victim);
      [RefDecision(c, h', events[0].call)] + RefDecisions(c, RefStep(c, h', events[0].call), events[1..])
  }

  lemma {:induction false} RunRefines(c: Config, s: State, h: History, events: seq<Event>, since: int)
    requires c.Valid() && Agree(c, s, h, since) && Legal(c, s, events, since)
    ensures Decisions(c, s, events) == RefDecisions(c, h, events)
    decreases |events|
  {
    if events != [] {
      var e := events[0];
      StepRefines(c, s, h, since, e.call, e.victim);
      RunRefines(c, Step(c, s, e.call, e.victim), RefStep(c, Without(h, e.victim), e.call), events[1..], e.call.now);
    }
  }

  // Main result 2: over any run from an empty limiter, the requests accepted
  // for a key since it was last evicted never exceed the limit in a window.
  lemma WindowIsRespected(c: Config, events: seq<Event>, start: int, key: string, from: int)
    requires c.Valid() && c.limit > 0 && Legal(c, State(map[], start), events, start)
    ensures Decisions(c, State(map[], start), events) == RefDecisions(c, map[], events)
    ensures Within(Get(RefRun(c, map[], events), key), from, from + c.window) <= c.limit
  {
    RunRefines(c, State(map[], start), map[], events, start);
    RefRunAdmissible(c, map[], events, State(map[], start), start);
    AdmissibleBoundsWindow(c, Get(RefRun(c, map[], events), key), from);
  }

  // ---------------------------------------------------------------- capacity

  lemma PruneShrinks(requests: Requests, cutoff: int)
    ensures Prune(requests, cutoff).Keys <= requests.Keys && |Prune(requests, cutoff)| <= |requests|
  {
    SubsetSize(Prune(requests, cutoff).Keys, requests.Keys);
  }

  // The map never holds more than `maxKeys` keys.
  lemma CapacityIsKept(c: Config, s: State, call: Call, victim: Option<string>)
    requires c.Valid() && |s.requests| <= c.maxKeys && ValidVictim(c, s, call, victim)
    ensures |Step(c, s, call, victim).requests| <= c.maxKeys
  {
    var swept := Swept(c, s, call);
    PruneShrinks(s.requests, Cutoff(c, call));
    PruneShrinks(swept.requests, Cutoff(c, call));
    var relieved := Relieved(c, swept, call);
    var ready := Ready(c, s, call, victim);
    if victim.Some? {
      assert ready.requests.Keys == relieved.requests.Keys - {victim.value};
    }
    assert Step(c, s, call, victim).requests.Keys == ready.requests.Keys + {call.key};
    if call.key !in ready.requests {
      assert |ready.requests.Keys| < c.maxKeys;
    }
  }

  lemma {:induction false} CapacityOverRuns(c: Config, s: State, events: seq<Event>, since: int)
    requires c.Valid() && |s.requests| <= c.maxKeys && Legal(c, s, events, since)
    ensures |Run(c, s, events).requests| <= c.maxKeys
    decreases |events|
  {
    if events != [] {
      CapacityIsKept(c, s, events[0].call, events[0].victim);
      CapacityOverRuns(c, Step(c, s, events[0].call, events[0].victim), events[1..], events[0].call.now);
    }
  }

  // --------------------------------------------- decisions in plain numbers

  lemma {:induction false} RecentCounts(times: Times, cutoff: int, now: int)
    requires TimesBy(times, now)
    ensures |Recent(times, cutoff)| == Within(times, cutoff + 1, now + 1)
  {
    if times != [] {
      RecentCounts(times[1..], cutoff, now);
    }
  }

  // A call is allowed exactly when fewer requests than the limit were accepted
  // in the window that ends with it.
  lemma AllowedIff(c: Config, h: History, call: Call)
    requires TimesBy(Get(h, call.key), call.now)
    ensures RefDecision(c, h, call) <==> Within(Get(h, call.key), call.now - c.window + 1, call.now + 1) < c.limit
  {
    RecentCounts(Get(h, call.key), call.now - c.window, call.now);
  }

  // The keys that a sweep leaves, and those still in the map when room is made.
  function LiveKeys(c: Config, s: State, call: Call): set<string> {
    set k | k in s.requests && exists i | 0 <= i < |s.requests[k]| :: s.requests[k][i] > Cutoff(c, call)
  }

  function KeysThen(c: Config, s: State, call: Call): set<string> {
    if call.clock - s.lastSweep >= 300_000_000_000 then LiveKeys(c, s, call) else s.requests.Keys
  }

  lemma {:induction false} SomeRecent(times: Times, cutoff: int)
    ensures Recent(times, cutoff) != [] <==> exists i | 0 <= i < |times| :: times[i] > cutoff
  {
    if times != [] {
      SomeRecent(times[1..], cutoff);
      if exists i | 0 <= i < |times[1..]| :: times[1..][i] > cutoff {
        var i :| 0 <= i < |times[1..]| && times[1..][i] > cutoff;
        assert times[i + 1] > cutoff;
      }
      if exists i | 0 <= i < |times| :: times[i] > cutoff {
        var i :| 0 <= i < |times| && times[i] > cutoff;
        assert i > 0 ==> times[1..][i - 1] > cutoff;
      }
    }
  }

  lemma PrunedKeys(c: Config, s: State, call: Call)
    ensures Prune(s.requests, Cutoff(c, call)).Keys == LiveKeys(c, s, call)
  {
    forall k | k in s.requests
      ensures Recent(s.requests[k], Cutoff(c, call)) != [] <==> k in LiveKeys(c, s, call)
    {
      SomeRecent(s.requests[k], Cutoff(c, call));
    }
  }

  lemma PrunedTwice(c: Config, s: State, call: Call)
    ensures Prune(Prune(s.requests, Cutoff(c, call)), Cutoff(c, call)) == Prune(s.requests, Cutoff(c, call))
  {
    forall k | k in s.requests
      ensures Recent(Recent(s.requests[k], Cutoff(c, call)), Cutoff(c, call)) == Recent(s.requests[k], Cutoff(c, call))
    {
      RecentTwice(s.requests[k], Cutoff(c, call), Cutoff(c, call));
    }
  }

  // The clock of the sweeps starts again with each sweep and each cleanup.
  lemma SweepsArePaced(c: Config, s: State, call: Call, victim: Option<string>)
    ensures Ready(c, s, call, victim).lastSweep ==
            if call.clock - s.lastSweep >= 300_000_000_000
               || (call.key !in KeysThen(c, s, call) && |KeysThen(c, s, call)| >= c.maxKeys) then call.now
            else s.lastSweep
  {
    PrunedKeys(c, s, call);
    assert |Swept(c, s, call).requests| == |Swept(c, s, call).requests.Keys|;
  }

  // `t` is the last request of the key that is still recent.
  predicate IsLastRecent(times: Times, cutoff: int, t: int) {
    exists i | 0 <= i < |times| :: times[i] == t > cutoff && forall k | i < k < |times| :: times[k] <= cutoff
  }

  lemma {:induction false} LastRecentIs(times: Times, cutoff: int)
    requires Recent(times, cutoff) != []
    ensures IsLastRecent(times, cutoff, Last(Recent(times, cutoff)))
  {
    var rest := times[1..];
    if Recent(rest, cutoff) == [] {
      SomeRecent(rest, cutoff);
      assert forall k | 0 < k < |times| :: times[k] == rest[k - 1];
      assert times[0] > cutoff;
    } else {
      LastRecentIs(rest, cutoff);
      var t := Last(Recent(rest, cutoff));
      assert Last(Recent(times, cutoff)) == t;
      var i :| 0 <= i < |rest| && rest[i] == t > cutoff && forall k | i < k < |rest| :: rest[k] <= cutoff;
      assert times[i + 1] == t && forall k | i + 1 < k < |times| :: times[k] == rest[k - 1];
    }
  }

  lemma OneLastRecent(times: Times, cutoff: int, t: int, u: int)
    requires IsLastRecent(times, cutoff, t) && IsLastRecent(times, cutoff, u)
    ensures t == u
  {
  }

  // A key goes exactly when a new key comes, the map is full, and it is still
  // full of live keys; it is one whose last recent request is the oldest.
  lemma EvictedIff(c: Config, s: State, call: Call, victim: Option<string>)
    requires ValidVictim(c, s, call, victim)
    ensures victim.Some? <==>
            && call.key !in KeysThen(c, s, call) && |KeysThen(c, s, call)| >= c.maxKeys && |LiveKeys(c, s, call)| >= c.maxKeys
    ensures victim.Some? ==>
              && victim.value in LiveKeys(c, s, call)
              && forall k, t, u | k in LiveKeys(c, s, call) &&
                   IsLastRecent(s.requests[victim.value], Cutoff(c, call), t) && IsLastRecent(s.requests[k], Cutoff(c, call), u) ::
                   t <= u
  {
    PrunedKeys(c, s, call);
    PrunedTwice(c, s, call);
    var pruned := Prune(s.requests, Cutoff(c, call));
    assert |pruned| == |pruned.Keys| && |s.requests| == |s.requests.Keys|;
    if victim.Some? {
      assert Relieved(c, Swept(c, s, call), call).requests == pruned;
      VictimWasLast(c, s, call, victim.value);
    }
  }

  lemma VictimWasLast(c: Config, s: State, call: Call, victim: string)
    requires Oldest(victim, LastRequests(Prune(s.requests, Cutoff(c, call))))
    ensures victim in LiveKeys(c, s, call)
    ensures forall k, t, u | k in LiveKeys(c, s, call) &&
              IsLastRecent(s.requests[victim], Cutoff(c, call), t) && IsLastRecent(s.requests[k], Cutoff(c, call), u) ::
              t <= u
  {
    var (pruned, cutoff) := (Prune(s.requests, Cutoff(c, call)), Cutoff(c, call));
    PrunedKeys(c, s, call);
    forall k, t, u | k in LiveKeys(c, s, call) && IsLastRecent(s.requests[victim], cutoff, t) && IsLastRecent(s.requests[k], cutoff, u)
      ensures t <= u
    {
      LastRecentIs(s.requests[victim], cutoff);
      LastRecentIs(s.requests[k], cutoff);
      OneLastRecent(s.requests[victim], cutoff, t, Last(pruned[victim]));
      OneLastRecent(s.requests[k], cutoff, u, Last(pruned[k]));
      assert k in LastRequests(pruned);
    }
  }

  // ---------------------------------------------------- why `now >= window`

  lemma {:induction false} RecentNothing(times: Times, cutoff: int)
    requires forall i | 0 <= i < |times| :: times[i] <= cutoff
    ensures Recent(times, cutoff) == []
  {
    if times != [] {
      RecentNothing(times[1..], cutoff);
    }
  }

  predicate TimesBy(times: Times, t: int) {
    forall i | 0 <= i < |times| :: times[i] <= t
  }

  // No stored request is younger than `t`.
  predicate AllBy(requests: Requests, t: int) {
    forall k | k in requests :: TimesBy(requests[k], t)
  }

  lemma {:induction false} RecentBy(times: Times, cutoff: int, t: int)
    requires TimesBy(times, t)
    ensures TimesBy(Recent(times, cutoff), t)
  {
    if times != [] {
      RecentBy(times[1..], cutoff, t);
    }
  }

  lemma PruneBy(requests: Requests, cutoff: int, t: int)
    requires AllBy(requests, t)
    ensures AllBy(Prune(requests, cutoff), t)
  {
    forall k | k in Prune(requests, cutoff)
      ensures TimesBy(Prune(requests, cutoff)[k], t)
    {
      RecentBy(requests[k], cutoff, t);
    }
  }

  lemma ReadyBy(c: Config, s: State, call: Call, victim: Option<string>, t: int)
    requires AllBy(s.requests, t)
    ensures AllBy(Ready(c, s, call, victim).requests, t)
  {
    PruneBy(s.requests, Cutoff(c, call), t);
    PruneBy(Swept(c, s, call).requests, Cutoff(c, call), t);
  }

  // Before the clock has run for a window the cutoff falls back to the current
  // instant, which discards every stored request: any call of any key is
  // accepted, whether or not a sweep or an eviction is due.
  lemma EarlyClockAcceptsEverything(c: Config, s: State, call: Call, victim: Option<string>)
    requires c.limit > 0 && call.now < c.window && AllBy(s.requests, call.late)
    ensures Decision(c, s, call, victim)
  {
    ReadyBy(c, s, call, victim, call.late);
    var ready := Ready(c, s, call, victim).requests;
    RecentNothing(Get(ready, call.key), call.late);
  }

  function Later(a: int, b: int): int {
    if a < b then b else a
  }

  lemma StoredBy(requests: Requests, key: string, entry: Times, now: int, t: int)
    requires AllBy(requests, t) && TimesBy(entry, t)
    ensures AllBy(requests[key := entry], Later(t, now)) && AllBy(requests[key := entry + [now]], Later(t, now))
  {
  }

  lemma StepBy(c: Config, s: State, call: Call, victim: Option<string>, t: int)
    requires AllBy(s.requests, t)
    ensures AllBy(Step(c, s, call, victim).requests, Later(t, call.now))
  {
    ReadyBy(c, s, call, victim, t);
    var requests := Ready(c, s, call, victim).requests;
    var entry := Recent(Get(requests, call.key), Cutoff(c, call));
    RecentBy(Get(requests, call.key), Cutoff(c, call), t);
    StoredBy(requests, call.key, entry, call.now, t);
  }

  // Calls in lock order while the window does not fit before the clock; each
  // reads its fallback cutoff no earlier than the requests stored before it.
  predicate EarlyRun(c: Config, events: seq<Event>, since: int)
    decreases |events|
  {
    events == [] ||
    var call := events[0].call;
    call.now < c.window && since <= call.late && EarlyRun(c, events[1..], Later(since, call.now))
  }

  // Over any such run, however long, nothing is ever refused.
  lemma {:induction false} EarlyRunIsUnlimited(c: Config, s: State, events: seq<Event>, since: int)
    requires c.limit > 0 && AllBy(s.requests, since) && EarlyRun(c, events, since)
    ensures forall i | 0 <= i < |Decisions(c, s, events)| :: Decisions(c, s, events)[i]
    decreases |events|
  {
    if events != [] {
      var e := events[0];
      EarlyClockAcceptsEverything(c, s, e.call, e.victim);
      StepBy(c, s, e.call, e.victim, since);
      EarlyRunIsUnlimited(c, Step(c, s, e.call, e.victim), events[1..], Later(since, e.call.now));
    }
  }

  // Calls of one key, one per nanosecond from the start of the clock.
  function Burst(key: string, from: nat, n: nat): seq<Event>
    decreases n
  {
    if n == 0 then [] else [Event(Call(key, from, from, from), None)] + Burst(key, from + 1, n - 1)
  }

  predicate ValidVictims(c: Config, s: State, events: seq<Event>)
    decreases |events|
  {
    events == [] ||
    (ValidVictim(c, s, events[0].call, events[0].victim) &&
     ValidVictims(c, Step(c, s, events[0].call, events[0].victim), events[1..]))
  }

  lemma {:induction false} BurstHasVictims(c: Config, s: State, key: string, from: nat, n: nat)
    requires c.Valid() && s.requests.Keys <= {key}
    ensures ValidVictims(c, s, Burst(key, from, n))
    decreases n
  {
    if n > 0 {
      var call := Call(key, from, from, from);
      assert Burst(key, from, n)[1..] == Burst(key, from + 1, n - 1);
      OneKeyStays(c, s, call);
      BurstHasVictims(c, Step(c, s, call, None), key, from + 1, n - 1);
    }
  }

  lemma {:induction false} BurstIsEarly(c: Config, key: string, from: nat, n: nat)
    requires from + n <= c.window
    ensures EarlyRun(c, Burst(key, from, n), if from == 0 then 0 else from - 1) && |Burst(key, from, n)| == n
    decreases n
  {
    if n > 0 {
      assert Burst(key, from, n)[1..] == Burst(key, from + 1, n - 1);
      BurstIsEarly(c, key, from + 1, n - 1);
    }
  }

  lemma OneKeyStays(c: Config, s: State, call: Call)
    requires c.Valid() && s.requests.Keys <= {call.key}
    ensures Step(c, s, call, None).requests.Keys == {call.key}
    ensures ValidVictim(c, s, call, None)
  {
    var swept := Swept(c, s, call);
    PruneShrinks(s.requests, Cutoff(c, call));
    assert call.key !in swept.requests ==> swept.requests.Keys == {} && |swept.requests| == 0;
    assert Relieved(c, swept, call).requests.Keys <= {call.key};
  }

  // So in a window of `n` nanoseconds `n` calls of one key are accepted, whatever
  // the limit.
  lemma EarlyBurstExceedsLimit(c: Config, key: string, n: nat)
    requires c.Valid() && c.limit > 0 && n <= c.window
    ensures var (events, start) := (Burst(key, 0, n), State(map[], 0));
            && |Decisions(c, start, events)| == n
            && ValidVictims(c, start, events)
            && forall i | 0 <= i < n :: Decisions(c, start, events)[i]
  {
    BurstIsEarly(c, key, 0, n);
    BurstHasVictims(c, State(map[], 0), key, 0, n);
    EarlyRunIsUnlimited(c, State(map[], 0), Burst(key, 0, n), 0);
    DecisionPerCall(c, State(map[], 0), Burst(key, 0, n));
  }

  lemma {:induction false} DecisionPerCall(c: Config, s: State, events: seq<Event>)
    ensures |Decisions(c, s, events)| == |events|
    decreases |events|
  {
    if events != [] {
      DecisionPerCall(c, Step(c, s, events[0].call, events[0].victim), events[1..]);
    }
  }
}
