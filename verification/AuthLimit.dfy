// The authentication limiter: sliding window, lockout, and a sweep that must
// not be noticed, against a limiter that never forgets an attempt or a lock.
module AuthLimit {
  import opened RateLimit

  const MAX_ATTEMPTS: nat := 10
  const WINDOW_SECS: int := 60
  const LOCKOUT_SECS: int := 300
  const SWEEP_INTERVAL_SECS: int := 300

  const WINDOW: int := WINDOW_SECS * SECOND
  const LOCKOUT: int := LOCKOUT_SECS * SECOND

  // `Instant::duration_since`, which saturates at zero.
  function Since(now: int, earlier: int): int {
    if now >= earlier then now - earlier else 0
  }

  // `Ok(())`, or the error with the seconds to wait.
  datatype Outcome = Allowed | RetryAfter(seconds: int)

  datatype Limiter = Limiter(attempts: Requests, lockouts: map<string, int>, lastSweep: int)

  function Sweep(s: Limiter, now: int, clock: int): Limiter {
    if Since(clock, s.lastSweep) < SWEEP_INTERVAL_SECS * SECOND then s
    else Limiter(
      Prune(s.attempts, now - WINDOW),
      map k | k in s.lockouts && Since(now, s.lockouts[k]) < LOCKOUT :: s.lockouts[k],
      now)
  }

  predicate Locked(lockouts: map<string, int>, key: string, now: int) {
    key in lockouts && Since(now, lockouts[key]) / SECOND < LOCKOUT_SECS
  }

  function Wait(lockedAt: int, now: int): int {
    LOCKOUT_SECS - Since(now, lockedAt) / SECOND
  }

  // An expired lockout goes together with the attempts that caused it.
  function Unlock(s: Limiter, key: string): Limiter {
    if key in s.lockouts then s.(lockouts := s.lockouts - {key}, attempts := s.attempts - {key}) else s
  }

  function PruneKey(s: Limiter, key: string, now: int): Limiter {
    if key in s.attempts then s.(attempts := s.attempts[key := Recent(s.attempts[key], now - WINDOW)]) else s
  }

  function CheckOutcome(s: Limiter, key: string, now: int, clock: int): Outcome {
    var swept := Sweep(s, now, clock);
    if Locked(swept.lockouts, key, now) then RetryAfter(Wait(swept.lockouts[key], now))
    else if |Get(PruneKey(Unlock(swept, key), key, now).attempts, key)| >= MAX_ATTEMPTS then RetryAfter(LOCKOUT_SECS)
    else Allowed
  }

  function Checked(s: Limiter, key: string, now: int, clock: int): Limiter {
    var swept := Sweep(s, now, clock);
    if Locked(swept.lockouts, key, now) then swept
    else
      var pruned := PruneKey(Unlock(swept, key), key, now);
      if |Get(pruned.attempts, key)| >= MAX_ATTEMPTS then pruned.(lockouts := pruned.lockouts[key := now]) else pruned
  }

  function Recorded(s: Limiter, key: string, now: int): Limiter {
    s.(attempts := s.attempts[key := Get(s.attempts, key) + [now]])
  }

  // The sweep drops only locks that lock no more.
  lemma SweepKeepsLock(s: Limiter, key: string, now: int, clock: int)
    ensures Locked(Sweep(s, now, clock).lockouts, key, now) <==> Locked(s.lockouts, key, now)
    ensures Locked(s.lockouts, key, now) ==> Sweep(s, now, clock).lockouts[key] == s.lockouts[key]
  {
  }

  // Exactly the locked keys are refused whatever their attempts.
  lemma LockRefuses(s: Limiter, key: string, now: int)
    ensures Locked(s.lockouts, key, now) <==>
            forall others: Requests, clock: int :: CheckOutcome(s.(attempts := others), key, now, clock).RetryAfter?
    ensures Locked(s.lockouts, key, now) ==>
            forall clock :: CheckOutcome(s, key, now, clock) == RetryAfter(Wait(s.lockouts[key], now))
  {
    forall others: Requests, clock: int
      ensures Locked(s.lockouts, key, now) ==>
              CheckOutcome(s.(attempts := others), key, now, clock) == RetryAfter(Wait(s.lockouts[key], now))
    {
      SweepKeepsLock(s.(attempts := others), key, now, clock);
    }
    assert s.(attempts := s.attempts) == s;
    if !Locked(s.lockouts, key, now) {
      var none := s.(attempts := map[]);
      SweepKeepsLock(none, key, now, now);
      assert Sweep(none, now, now).attempts == map[];
      assert CheckOutcome(none, key, now, now) == Allowed;
    }
  }

  // ------------------------------------------------- verdicts in plain numbers

  // Attempts less than a minute old.
  function Young(times: Times, now: int): nat {
    if times == [] then 0 else (if now - times[0] < 60_000_000_000 then 1 else 0) + Young(times[1..], now)
  }

  lemma {:induction false} YoungAreRecent(times: Times, now: int)
    ensures |Recent(times, now - WINDOW)| == Young(times, now)
  {
    if times != [] {
      YoungAreRecent(times[1..], now);
    }
  }

  // A lock refuses for five minutes, and the wait it names is the rest of them,
  // in whole seconds and no second too long.
  lemma LockedOutUntil(s: Limiter, key: string, now: int, clock: int)
    requires key in s.lockouts && s.lockouts[key] <= now
    ensures var rest := s.lockouts[key] + 300_000_000_000 - now;
            if rest > 0 then
              var outcome := CheckOutcome(s, key, now, clock);
              outcome.RetryAfter? && (outcome.seconds - 1) * 1_000_000_000 < rest <= outcome.seconds * 1_000_000_000
            else !Locked(s.lockouts, key, now)
  {
    SweepKeepsLock(s, key, now, clock);
  }

  // Without a lock on record, ten attempts within a minute lock the key for five
  // minutes, and fewer are allowed.
  lemma TenthAttemptLocks(s: Limiter, key: string, now: int, clock: int)
    requires key !in s.lockouts
    ensures var (outcome, s') := (CheckOutcome(s, key, now, clock), Checked(s, key, now, clock));
            if Young(Get(s.attempts, key), now) >= 10 then
              outcome == RetryAfter(300) && key in s'.lockouts && s'.lockouts[key] == now
            else outcome == Allowed && key !in s'.lockouts
  {
    var swept := Sweep(s, now, clock);
    PruneIsInvisible(s.attempts, key, now - WINDOW);
    RecentTwice(Get(s.attempts, key), now - WINDOW, now - WINDOW);
    YoungAreRecent(Get(s.attempts, key), now);
    assert key !in swept.lockouts && Unlock(swept, key) == swept;
    assert Get(PruneKey(swept, key, now).attempts, key) == Recent(Get(swept.attempts, key), now - WINDOW);
  }

  // A lock that has run out goes, and with it, unless a sweep took it first, the
  // attempts that caused it.
  lemma ExpiredLockIsLifted(s: Limiter, key: string, now: int, clock: int)
    requires key in s.lockouts && now - s.lockouts[key] >= 300_000_000_000 && clock - s.lastSweep < 300_000_000_000
    requires clock >= s.lastSweep
    ensures CheckOutcome(s, key, now, clock) == Allowed
    ensures key !in Checked(s, key, now, clock).lockouts && key !in Checked(s, key, now, clock).attempts
  {
  }

  // What a sweep does, and when.
  lemma SweepIs(s: Limiter, now: int, clock: int)
    requires clock >= s.lastSweep
    ensures clock - s.lastSweep < 300_000_000_000 ==> Sweep(s, now, clock) == s
    ensures clock - s.lastSweep >= 300_000_000_000 ==>
              var s' := Sweep(s, now, clock);
              && s'.lastSweep == now
              && (forall k :: k in s'.lockouts <==> k in s.lockouts && now - s.lockouts[k] < 300_000_000_000)
              && (forall k | k in s'.lockouts :: s'.lockouts[k] == s.lockouts[k])
              && (forall k :: k in s'.attempts <==> k in s.attempts && exists t :: t in s.attempts[k] && t > now - 60_000_000_000)
              && (forall k, t | k in s'.attempts :: t in s'.attempts[k] <==> t in s.attempts[k] && t > now - 60_000_000_000)
  {
    PruneKeeps(s.attempts, now - WINDOW);
  }

  class AuthRateLimiter {
    const isLoopback: string -> bool
    var attempts: Requests
    var lockouts: map<string, int>
    var lastSweep: int

    ghost function Abs(): Limiter
      reads this
    {
      Limiter(attempts, lockouts, lastSweep)
    }

    constructor (isLoopback: string -> bool, now: int)
      ensures Abs() == Limiter(map[], map[], now) && this.isLoopback == isLoopback
    {
      this.isLoopback := isLoopback;
      attempts, lockouts, lastSweep := map[], map[], now;
    }

    method MaybeSweep(now: int, clock: int)
      modifies this
      ensures Abs() == Sweep(old(Abs()), now, clock)
    {
      if Since(clock, lastSweep) < SWEEP_INTERVAL_SECS * SECOND {
        return;
      }
      lastSweep := now;
      lockouts := map k | k in lockouts && Since(now, lockouts[k]) < LOCKOUT :: lockouts[k];
      attempts := RetainRecent(attempts, now - WINDOW);
    }

    method CheckRateLimit(key: string, now: int, clock: int) returns (outcome: Outcome)
      modifies this
      ensures isLoopback(key) ==> outcome == Allowed && Abs() == old(Abs())
      ensures !isLoopback(key) ==> outcome == CheckOutcome(old(Abs()), key, now, clock)
      ensures !isLoopback(key) ==> Abs() == Checked(old(Abs()), key, now, clock)
    {
      if isLoopback(key) {
        return Allowed;
      }
      MaybeSweep(now, clock);
      if key in lockouts {
        var elapsed := Since(now, lockouts[key]) / SECOND;
        if elapsed < LOCKOUT_SECS {
          return RetryAfter(LOCKOUT_SECS - elapsed);
        }
        lockouts := lockouts - {key};
        attempts := attempts - {key};
      }
      if key in attempts {
        var timestamps := Retain(attempts[key], now - WINDOW);
        attempts := attempts[key := timestamps];
        if |attempts[key]| >= MAX_ATTEMPTS {
          lockouts := lockouts[key := now];
          return RetryAfter(LOCKOUT_SECS);
        }
      }
      return Allowed;
    }

    method RecordAttempt(key: string, now: int)
      modifies this
      ensures Abs() == if isLoopback(key) then old(Abs()) else Recorded(old(Abs()), key, now)
      ensures !isLoopback(key) ==>
                attempts == old(attempts)[key := (if key in old(attempts) then old(attempts)[key] else []) + [now]]
    {
      if isLoopback(key) {
        return;
      }
      attempts := attempts[key := (if key in attempts then attempts[key] else []) + [now]];
    }

    // Locked out means: a check now is refused, and would be whatever attempts
    // were on record.
    method IsLockedOut(key: string, now: int) returns (locked: bool)
      ensures isLoopback(key) ==> !locked
      ensures !isLoopback(key) ==>
                (locked <==> forall others: Requests, clock: int ::
                   CheckOutcome(Limiter(others, lockouts, lastSweep), key, now, clock).RetryAfter?)
      ensures locked ==> key in lockouts && forall clock :: CheckOutcome(Abs(), key, now, clock) == RetryAfter(Wait(lockouts[key], now))
    {
      LockRefuses(Abs(), key, now);
      if isLoopback(key) {
        return false;
      }
      locked := key in lockouts && Since(now, lockouts[key]) / SECOND < LOCKOUT_SECS;
    }
  }

  // --------------------------------------------------- the reference limiter

  // Every attempt ever recorded and the last time each key was locked.
  datatype Reference = Reference(history: Requests, locks: map<string, int>)

  function RefOutcome(r: Reference, key: string, now: int): Outcome {
    if Locked(r.locks, key, now) then RetryAfter(Wait(r.locks[key], now))
    else if |Recent(Get(r.history, key), now - WINDOW)| >= MAX_ATTEMPTS then RetryAfter(LOCKOUT_SECS)
    else Allowed
  }

  function RefChecked(r: Reference, key: string, now: int): Reference {
    if !Locked(r.locks, key, now) && |Recent(Get(r.history, key), now - WINDOW)| >= MAX_ATTEMPTS
    then r.(locks := r.locks[key := now])
    else r
  }

  function RefRecorded(r: Reference, key: string, now: int): Reference {
    r.(history := r.history[key := Get(r.history, key) + [now]])
  }

  ghost predicate AllUpTo(times: Times, t: int) {
    forall i | 0 <= i < |times| :: times[i] <= t
  }

  // The limiter holds, of each key, the recent attempts and the live lock; a
  // lock it holds is the last one, and no attempt was recorded after it.
  ghost predicate SameKey(s: Limiter, r: Reference, key: string, t: int) {
    && Recent(Get(s.attempts, key), t - WINDOW) == Recent(Get(r.history, key), t - WINDOW)
    && AllUpTo(Get(r.history, key), t)
    && (key in s.lockouts ==> key in r.locks && s.lockouts[key] == r.locks[key] && AllUpTo(Get(r.history, key), r.locks[key]))
    && (key in r.locks ==> r.locks[key] <= t)
    && (key in r.locks && t - r.locks[key] < LOCKOUT ==> key in s.lockouts)
  }

  // A key whose last operation was a successful check.
  ghost predicate Ready(s: Limiter, r: Reference, key: string, t: int) {
    key !in s.lockouts && |Recent(Get(r.history, key), t - WINDOW)| < MAX_ATTEMPTS
  }

  ghost predicate Simulates(s: Limiter, r: Reference, armed: set<string>, t: int) {
    && (forall key :: SameKey(s, r, key, t))
    && (forall key | key in armed :: Ready(s, r, key, t))
    && HistoryAdmissible(AttemptWindow(), r.history, t)
  }

  // At most MAX_ATTEMPTS attempts in a window, in the terms of RateLimit.
  function AttemptWindow(): Config {
    Config(MAX_ATTEMPTS, WINDOW, 1)
  }

  lemma {:induction false} RecentShrinks(times: Times, early: int, late: int)
    requires early <= late
    ensures |Recent(times, late)| <= |Recent(times, early)|
  {
    if times != [] {
      RecentShrinks(times[1..], early, late);
    }
  }

  lemma SameKeyLater(s: Limiter, r: Reference, key: string, t: int, now: int)
    requires SameKey(s, r, key, t) && t <= now
    ensures SameKey(s, r, key, now)
  {
    RecentTwice(Get(s.attempts, key), t - WINDOW, now - WINDOW);
    RecentTwice(Get(r.history, key), t - WINDOW, now - WINDOW);
  }

  // The sweep drops only stale attempts and expired locks.
  lemma SweepIsInvisible(s: Limiter, r: Reference, key: string, now: int, clock: int)
    requires SameKey(s, r, key, now)
    ensures SameKey(Sweep(s, now, clock), r, key, now)
    ensures key !in s.lockouts ==> key !in Sweep(s, now, clock).lockouts
  {
    PruneIsInvisible(s.attempts, key, now - WINDOW);
  }

  lemma LockedIff(lockouts: map<string, int>, key: string, now: int)
    requires key in lockouts && lockouts[key] <= now
    ensures Locked(lockouts, key, now) <==> now - lockouts[key] < LOCKOUT
  {
  }

  // Same verdict and same state for the checked key.
  lemma CheckAgrees(s: Limiter, r: Reference, key: string, now: int, clock: int)
    requires SameKey(s, r, key, now)
    ensures CheckOutcome(s, key, now, clock) == RefOutcome(r, key, now)
    ensures SameKey(Checked(s, key, now, clock), RefChecked(r, key, now), key, now)
    ensures RefOutcome(r, key, now) == Allowed ==> Ready(Checked(s, key, now, clock), r, key, now)
  {
    SweepIsInvisible(s, r, key, now, clock);
    var swept := Sweep(s, now, clock);
    if key in swept.lockouts {
      LockedIff(swept.lockouts, key, now);
    }
    if key in r.locks {
      LockedIff(r.locks, key, now);
    }
    assert Locked(swept.lockouts, key, now) <==> Locked(r.locks, key, now);
    if !Locked(r.locks, key, now) {
      UnlockAgrees(swept, r, key, now);
    }
  }

  lemma UnlockAgrees(s: Limiter, r: Reference, key: string, now: int)
    requires SameKey(s, r, key, now) && !Locked(s.lockouts, key, now)
    ensures var pruned := PruneKey(Unlock(s, key), key, now);
            && Get(pruned.attempts, key) == Recent(Get(r.history, key), now - WINDOW)
            && Recent(Get(pruned.attempts, key), now - WINDOW) == Recent(Get(r.history, key), now - WINDOW)
  {
    if key in s.lockouts {
      LockedIff(s.lockouts, key, now);
      RecentNothing(Get(r.history, key), now - WINDOW);
    }
    RecentTwice(Get(s.attempts, key), now - WINDOW, now - WINDOW);
  }

  // Other keys only see the sweep.
  lemma OtherKeyUnchecked(s: Limiter, r: Reference, key: string, other: string, now: int, clock: int)
    requires SameKey(s, r, other, now) && other != key
    ensures SameKey(Checked(s, key, now, clock), RefChecked(r, key, now), other, now)
    ensures Ready(s, r, other, now) ==> Ready(Checked(s, key, now, clock), RefChecked(r, key, now), other, now)
  {
    SweepIsInvisible(s, r, other, now, clock);
  }

  lemma ReadyLater(s: Limiter, r: Reference, key: string, t: int, now: int)
    requires Ready(s, r, key, t) && t <= now
    ensures Ready(s, r, key, now)
  {
    RecentShrinks(Get(r.history, key), t - WINDOW, now - WINDOW);
  }

  lemma AdmissibleLater(h: Requests, t: int, now: int)
    requires HistoryAdmissible(AttemptWindow(), h, t) && t <= now
    ensures HistoryAdmissible(AttemptWindow(), h, now)
  {
  }

  lemma Later(s: Limiter, r: Reference, armed: set<string>, t: int, now: int)
    requires Simulates(s, r, armed, t) && t <= now
    ensures Simulates(s, r, armed, now)
  {
    forall key
      ensures SameKey(s, r, key, now)
    {
      SameKeyLater(s, r, key, t, now);
    }
    forall key | key in armed
      ensures Ready(s, r, key, now)
    {
      ReadyLater(s, r, key, t, now);
    }
    AdmissibleLater(r.history, t, now);
  }

  lemma CheckSimulates(s: Limiter, r: Reference, armed: set<string>, key: string, now: int, clock: int)
    requires Simulates(s, r, armed, now)
    ensures CheckOutcome(s, key, now, clock) == RefOutcome(r, key, now)
    ensures Simulates(Checked(s, key, now, clock), RefChecked(r, key, now), ArmedAfter(armed, r, Check(key, now, clock)), now)
  {
    CheckAgrees(s, r, key, now, clock);
    forall other
      ensures SameKey(Checked(s, key, now, clock), RefChecked(r, key, now), other, now)
      ensures other in armed && other != key ==> Ready(Checked(s, key, now, clock), RefChecked(r, key, now), other, now)
    {
      if other != key {
        OtherKeyUnchecked(s, r, key, other, now, clock);
      }
    }
  }

  lemma RecordSimulates(s: Limiter, r: Reference, armed: set<string>, key: string, now: int)
    requires Simulates(s, r, armed, now) && key in armed
    ensures Simulates(Recorded(s, key, now), RefRecorded(r, key, now), armed - {key}, now)
  {
    var s', r' := Recorded(s, key, now), RefRecorded(r, key, now);
    forall other
      ensures SameKey(s', r', other, now)
    {
      assert SameKey(s, r, other, now);
      if other == key {
        RecentPush(Get(s.attempts, key), now, now - WINDOW);
        RecentPush(Get(r.history, key), now, now - WINDOW);
      }
    }
    forall other | other in armed - {key}
      ensures Ready(s', r', other, now)
    {
      assert Ready(s, r, other, now);
    }
    RecordAdmissible(r, key, now);
  }

  lemma RecordAdmissible(r: Reference, key: string, now: int)
    requires HistoryAdmissible(AttemptWindow(), r.history, now)
    requires |Recent(Get(r.history, key), now - WINDOW)| < MAX_ATTEMPTS
    ensures HistoryAdmissible(AttemptWindow(), RefRecorded(r, key, now).history, now)
  {
    var before := Get(r.history, key);
    var after := RefRecorded(r, key, now).history;
    assert after[key][..|after[key]| - 1] == before;
    assert Admissible(AttemptWindow(), after[key]);
  }

  // -------------------------------------------------------------------- runs

  datatype Op = Check(key: string, now: int, clock: int) | Record(key: string, now: int)

  function Apply(s: Limiter, op: Op): Limiter {
    match op
    case Check(key, now, clock) => Checked(s, key, now, clock)
    case Record(key, now) => Recorded(s, key, now)
  }

  function RefApply(r: Reference, op: Op): Reference {
    match op
    case Check(key, now, _) => RefChecked(r, key, now)
    case Record(key, now) => RefRecorded(r, key, now)
  }

  function ArmedAfter(armed: set<string>, r: Reference, op: Op): set<string> {
    match op
    case Check(key, now, _) => if RefOutcome(r, key, now) == Allowed then armed + {key} else armed - {key}
    case Record(key, _) => armed - {key}
  }

  // Nondecreasing clocks, and each attempt directly follows a successful check
  // of its key.
  predicate Disciplined(r: Reference, armed: set<string>, ops: seq<Op>, t: int)
    decreases |ops|
  {
    ops == [] ||
    var op := ops[0];
    && t <= op.now
    && (op.Record? ==> op.key in armed)
    && Disciplined(RefApply(r, op), ArmedAfter(armed, r, op), ops[1..], op.now)
  }

  // Verdicts of the checks of a run, in order.
  function Outcomes(s: Limiter, ops: seq<Op>): seq<Outcome>
    decreases |ops|
  {
    if ops == [] then []
    else
      (if ops[0].Check? then [CheckOutcome(s, ops[0].key, ops[0].now, ops[0].clock)] else []) + Outcomes(Apply(s, ops[0]), ops[1..])
  }

  function RefOutcomes(r: Reference, ops: seq<Op>): seq<Outcome>
    decreases |ops|
  {
    if ops == [] then []
    else (if ops[0].Check? then [RefOutcome(r, ops[0].key, ops[0].now)] else []) + RefOutcomes(RefApply(r, ops[0]), ops[1..])
  }

  function Final(s: Limiter, ops: seq<Op>): Limiter
    decreases |ops|
  {
    if ops == [] then s else Final(Apply(s, ops[0]), ops[1..])
  }

  function RefFinal(r: Reference, ops: seq<Op>): Reference
    decreases |ops|
  {
    if ops == [] then r else RefFinal(RefApply(r, ops[0]), ops[1..])
  }

  function ArmedFinal(armed: set<string>, r: Reference, ops: seq<Op>): set<string>
    decreases |ops|
  {
    if ops == [] then armed else ArmedFinal(ArmedAfter(armed, r, ops[0]), RefApply(r, ops[0]), ops[1..])
  }

  function LastTime(ops: seq<Op>, t: int): int {
    if ops == [] then t else ops[|ops| - 1].now
  }

  lemma OpSimulates(s: Limiter, r: Reference, armed: set<string>, op: Op, t: int)
    requires Simulates(s, r, armed, t) && t <= op.now && (op.Record? ==> op.key in armed)
    ensures Simulates(Apply(s, op), RefApply(r, op), ArmedAfter(armed, r, op), op.now)
    ensures op.Check? ==> CheckOutcome(s, op.key, op.now, op.clock) == RefOutcome(r, op.key, op.now)
  {
    Later(s, r, armed, t, op.now);
    match op
    case Check(key, now, clock) => CheckSimulates(s, r, armed, key, now, clock);
    case Record(key, now) => RecordSimulates(s, r, armed, key, now);
  }

  // Main result 1: in a disciplined run every verdict is that of the limiter
  // that never sweeps, prunes or unlocks, so the sweep changes no outcome.
  lemma {:induction false} SweepChangesNothing(s: Limiter, r: Reference, armed: set<string>, ops: seq<Op>, t: int)
    requires Simulates(s, r, armed, t) && Disciplined(r, armed, ops, t)
    ensures Outcomes(s, ops) == RefOutcomes(r, ops)
    ensures HistoryAdmissible(AttemptWindow(), RefFinal(r, ops).history, LastTime(ops, t))
    decreases |ops|
  {
    if ops != [] {
      OpSimulates(s, r, armed, ops[0], t);
      SweepChangesNothing(Apply(s, ops[0]), RefApply(r, ops[0]), ArmedAfter(armed, r, ops[0]), ops[1..], ops[0].now);
    }
  }

  lemma EmptySimulates(start: int)
    ensures Simulates(Limiter(map[], map[], start), Reference(map[], map[]), {}, start)
  {
  }

  // Main result 2: no window of 60 seconds holds more than MAX_ATTEMPTS attempts of a key.
  lemma AttemptsAreBounded(ops: seq<Op>, start: int, key: string, from: int)
    requires Disciplined(Reference(map[], map[]), {}, ops, start)
    ensures Within(Get(RefFinal(Reference(map[], map[]), ops).history, key), from, from + WINDOW) <= MAX_ATTEMPTS
  {
    EmptySimulates(start);
    SweepChangesNothing(Limiter(map[], map[], start), Reference(map[], map[]), {}, ops, start);
    AdmissibleBoundsWindow(AttemptWindow(), Get(RefFinal(Reference(map[], map[]), ops).history, key), from);
  }

  // Main result 3: a refused client that waits the seconds it was told passes
  // its next check, whatever other keys do meanwhile.
  lemma WaitingHelps(s: Limiter, r: Reference, armed: set<string>, key: string, now: int, clock: int,
                     others: seq<Op>, later: int, laterClock: int)
    requires Simulates(s, r, armed, now)
    requires CheckOutcome(s, key, now, clock).RetryAfter?
    requires forall i | 0 <= i < |others| :: others[i].key != key
    requires var op := Check(key, now, clock);
             Disciplined(RefApply(r, op), ArmedAfter(armed, r, op), others + [Check(key, later, laterClock)], now)
    requires later >= now + CheckOutcome(s, key, now, clock).seconds * SECOND
    ensures CheckOutcome(Final(Checked(s, key, now, clock), others), key, later, laterClock) == Allowed
  {
    var op := Check(key, now, clock);
    var s', r', armed' := Apply(s, op), RefApply(r, op), ArmedAfter(armed, r, op);
    OpSimulates(s, r, armed, op, now);
    assert SameKey(s, r, key, now);
    LockHeld(s, r, key, now);
    WaitCoversLockout(r'.locks[key], now, CheckOutcome(s, key, now, clock).seconds);
    OthersLeaveKeyAlone(s', r', armed', key, others, Check(key, later, laterClock), now);
    AllowedAfterLockout(RefFinal(r', others), key, later);
  }

  // A disciplined run from the empty limiter ends in a state that simulates the
  // reference, so the promise holds after every such run.
  lemma {:induction false} RunSimulates(s: Limiter, r: Reference, armed: set<string>, ops: seq<Op>, t: int)
    requires Simulates(s, r, armed, t) && Disciplined(r, armed, ops, t)
    ensures Simulates(Final(s, ops), RefFinal(r, ops), ArmedFinal(armed, r, ops), LastTime(ops, t))
    decreases |ops|
  {
    if ops != [] {
      OpSimulates(s, r, armed, ops[0], t);
      RunSimulates(Apply(s, ops[0]), RefApply(r, ops[0]), ArmedAfter(armed, r, ops[0]), ops[1..], ops[0].now);
      assert LastTime(ops, t) == LastTime(ops[1..], ops[0].now);
    }
  }

  lemma WaitingHelpsAfterAnyRun(before: seq<Op>, start: int, key: string, now: int, clock: int,
                                others: seq<Op>, later: int, laterClock: int)
    requires Disciplined(Reference(map[], map[]), {}, before, start) && LastTime(before, start) <= now
    requires var s := Final(Limiter(map[], map[], start), before);
             CheckOutcome(s, key, now, clock).RetryAfter? &&
             later >= now + CheckOutcome(s, key, now, clock).seconds * SECOND
    requires forall i | 0 <= i < |others| :: others[i].key != key
    requires var (r, armed) := (RefFinal(Reference(map[], map[]), before), ArmedFinal({}, Reference(map[], map[]), before));
             var op := Check(key, now, clock);
             Disciplined(RefApply(r, op), ArmedAfter(armed, r, op), others + [Check(key, later, laterClock)], now)
    ensures var s := Final(Limiter(map[], map[], start), before);
            CheckOutcome(Final(Checked(s, key, now, clock), others), key, later, laterClock) == Allowed
  {
    var (empty, none) := (Limiter(map[], map[], start), Reference(map[], map[]));
    EmptySimulates(start);
    RunSimulates(empty, none, {}, before, start);
    var (s, r, armed) := (Final(empty, before), RefFinal(none, before), ArmedFinal({}, none, before));
    Later(s, r, armed, LastTime(before, start), now);
    WaitingHelps(s, r, armed, key, now, clock, others, later, laterClock);
  }

  lemma AllowedAfterLockout(r: Reference, key: string, now: int)
    requires key in r.locks && r.locks[key] + LOCKOUT <= now && AllUpTo(Get(r.history, key), r.locks[key])
    ensures RefOutcome(r, key, now) == Allowed
  {
    LockedIff(r.locks, key, now);
    RecentNothing(Get(r.history, key), now - WINDOW);
  }

  lemma WaitCoversLockout(lockedAt: int, now: int, seconds: int)
    requires lockedAt <= now && seconds == Wait(lockedAt, now)
    ensures now + seconds * SECOND >= lockedAt + LOCKOUT
  {
  }

  // After a refusal the key is locked and all its attempts predate the lock.
  lemma LockHeld(s: Limiter, r: Reference, key: string, now: int)
    requires SameKey(s, r, key, now) && RefOutcome(r, key, now).RetryAfter?
    ensures var r' := RefChecked(r, key, now);
            && key in r'.locks && r'.locks[key] <= now
            && RefOutcome(r, key, now).seconds == Wait(r'.locks[key], now)
            && AllUpTo(Get(r'.history, key), r'.locks[key])
  {
    if Locked(r.locks, key, now) {
      LockedIff(r.locks, key, now);
    }
  }

  lemma {:induction false} OthersLeaveKeyAlone(s: Limiter, r: Reference, armed: set<string>, key: string,
                                               others: seq<Op>, next: Op, t: int)
    requires Simulates(s, r, armed, t) && next.Check? && next.key == key
    requires forall i | 0 <= i < |others| :: others[i].key != key
    requires Disciplined(r, armed, others + [next], t)
    ensures var r' := RefFinal(r, others);
            && Get(r'.history, key) == Get(r.history, key)
            && (key in r'.locks <==> key in r.locks) && (key in r.locks ==> r'.locks[key] == r.locks[key])
            && CheckOutcome(Final(s, others), key, next.now, next.clock) == RefOutcome(r', key, next.now)
    decreases |others|
  {
    if others == [] {
      assert others + [next] == [next];
      OpSimulates(s, r, armed, next, t);
    } else {
      var op := others[0];
      assert (others + [next])[1..] == others[1..] + [next];
      OpSimulates(s, r, armed, op, t);
      OthersLeaveKeyAlone(Apply(s, op), RefApply(r, op), ArmedAfter(armed, r, op), key, others[1..], next, op.now);
    }
  }

  // ------------------------------------------------- why discipline is needed

  // Exactly when it matters for a verdict whether a sweep is due: an expired
  // lock is still held and the attempts on record would lock again.
  lemma SweepShowsIff(s: Limiter, key: string, now: int, due: int, early: int)
    requires Since(due, s.lastSweep) >= SWEEP_INTERVAL_SECS * SECOND > Since(early, s.lastSweep)
    ensures CheckOutcome(s, key, now, due) != CheckOutcome(s, key, now, early) <==>
            && key in s.lockouts && Since(now, s.lockouts[key]) >= LOCKOUT
            && |Recent(Get(s.attempts, key), now - WINDOW)| >= MAX_ATTEMPTS
  {
    SweepKeepsLock(s, key, now, due);
    SweepKeepsLock(s, key, now, early);
    var swept := Sweep(s, now, due);
    PruneIsInvisible(s.attempts, key, now - WINDOW);
    if !Locked(s.lockouts, key, now) {
      assert key !in swept.lockouts;
      CountAfterUnlock(swept, key, now);
      CountAfterUnlock(s, key, now);
    }
  }

  lemma CountAfterUnlock(s: Limiter, key: string, now: int)
    ensures Get(PruneKey(Unlock(s, key), key, now).attempts, key) ==
            if key in s.lockouts then [] else Recent(Get(s.attempts, key), now - WINDOW)
  {
  }

  function Repeat<T>(x: T, n: nat): (r: seq<T>)
    ensures |r| == n && forall i | 0 <= i < n :: r[i] == x
  {
    seq(n, i => x)
  }

  lemma {:induction false} FinalConcat(s: Limiter, a: seq<Op>, b: seq<Op>)
    ensures Final(s, a + b) == Final(Final(s, a), b)
    decreases |a|
  {
    if a == [] {
      assert a + b == b;
    } else {
      assert (a + b)[1..] == a[1..] + b;
      FinalConcat(Apply(s, a[0]), a[1..], b);
    }
  }

  lemma {:induction false} RecordsPileUp(s: Limiter, key: string, t: int, n: nat)
    requires n > 0
    ensures Final(s, Repeat(Record(key, t), n)) == s.(attempts := s.attempts[key := Get(s.attempts, key) + Repeat(t, n)])
    decreases n
  {
    var ops, s' := Repeat(Record(key, t), n), Recorded(s, key, t);
    assert ops[1..] == Repeat(Record(key, t), n - 1);
    assert Repeat(t, n) == [t] + Repeat(t, n - 1);
    if n > 1 {
      RecordsPileUp(s', key, t, n - 1);
      assert Get(s.attempts, key) + Repeat(t, n) == Get(s'.attempts, key) + Repeat(t, n - 1);
      assert s.attempts[key := Get(s.attempts, key) + Repeat(t, n)]
          == s'.attempts[key := Get(s'.attempts, key) + Repeat(t, n - 1)];
    } else {
      assert ops[1..] == [] && Repeat(t, 1) == [t];
    }
  }

  // Ten attempts lock the key halfway through a sweep interval; while it is
  // locked, ten more are recorded just before the lock expires.
  function LockingRun(key: string, start: int): seq<Op> {
    var t := start + 150 * SECOND;
    Repeat(Record(key, t), MAX_ATTEMPTS) + [Check(key, t, t)]
  }

  function AttemptsWhileLocked(key: string, start: int): seq<Op> {
    Repeat(Record(key, start + 449 * SECOND), MAX_ATTEMPTS)
  }

  function OtherClient(other: string, start: int): seq<Op> {
    [Check(other, start + 300 * SECOND, start + 300 * SECOND)]
  }

  lemma LockingRunLocks(key: string, start: int)
    ensures var t := start + 150 * SECOND;
            Final(Limiter(map[], map[], start), LockingRun(key, start)) ==
            Limiter(map[key := Repeat(t, MAX_ATTEMPTS)], map[key := t], start)
  {
    var t, empty := start + 150 * SECOND, Limiter(map[], map[], start);
    var check := [Check(key, t, t)];
    FinalConcat(empty, Repeat(Record(key, t), MAX_ATTEMPTS), check);
    RecordsPileUp(empty, key, t, MAX_ATTEMPTS);
    assert [] + Repeat(t, MAX_ATTEMPTS) == Repeat(t, MAX_ATTEMPTS);
    var full := Limiter(map[key := Repeat(t, MAX_ATTEMPTS)], map[], start);
    assert map[][key := Repeat(t, MAX_ATTEMPTS)] == map[key := Repeat(t, MAX_ATTEMPTS)];
    assert Final(empty, Repeat(Record(key, t), MAX_ATTEMPTS)) == full;
    RecentAll(Repeat(t, MAX_ATTEMPTS), t - WINDOW);
    assert check[1..] == [];
    assert Sweep(full, t, t) == full && Unlock(full, key) == full && PruneKey(full, key, t) == full;
    assert map[][key := t] == map[key := t];
  }

  // Attempts recorded while the key is locked make the sweep visible: in a run
  // from the empty limiter the verdict for one client depends on whether another
  // client was checked meanwhile, since that check was the one that swept.
  lemma SweepShowsWithoutDiscipline(key: string, other: string, start: int)
    requires key != other
    ensures var (empty, now) := (Limiter(map[], map[], start), start + 450 * SECOND);
            var alone := LockingRun(key, start) + AttemptsWhileLocked(key, start);
            var together := LockingRun(key, start) + (OtherClient(other, start) + AttemptsWhileLocked(key, start));
            && CheckOutcome(Final(empty, alone), key, now, now) == RetryAfter(LOCKOUT_SECS)
            && CheckOutcome(Final(empty, together), key, now, now) == Allowed
  {
    var empty := Limiter(map[], map[], start);
    var locked := Final(empty, LockingRun(key, start));
    FinalConcat(empty, LockingRun(key, start), AttemptsWhileLocked(key, start));
    FinalConcat(empty, LockingRun(key, start), OtherClient(other, start) + AttemptsWhileLocked(key, start));
    FinalConcat(locked, OtherClient(other, start), AttemptsWhileLocked(key, start));
    LockingRunLocks(key, start);
    AloneLocksAgain(locked, key, start);
    TogetherLetsIn(locked, key, other, start);
  }

  lemma AloneLocksAgain(locked: Limiter, key: string, start: int)
    requires locked == Limiter(map[key := Repeat(start + 150 * SECOND, MAX_ATTEMPTS)], map[key := start + 150 * SECOND], start)
    ensures CheckOutcome(Final(locked, AttemptsWhileLocked(key, start)), key, start + 450 * SECOND, start + 450 * SECOND) ==
            RetryAfter(LOCKOUT_SECS)
  {
    var (late, now) := (start + 449 * SECOND, start + 450 * SECOND);
    RecordsPileUp(locked, key, late, MAX_ATTEMPTS);
    var s := Final(locked, AttemptsWhileLocked(key, start));
    RecentOfTwo(start + 150 * SECOND, late, now - WINDOW);
    assert Get(s.attempts, key) == Repeat(start + 150 * SECOND, MAX_ATTEMPTS) + Repeat(late, MAX_ATTEMPTS);
    PruneIsInvisible(s.attempts, key, now - WINDOW);
    CountAfterUnlock(Sweep(s, now, now), key, now);
  }

  lemma TogetherLetsIn(locked: Limiter, key: string, other: string, start: int)
    requires locked == Limiter(map[key := Repeat(start + 150 * SECOND, MAX_ATTEMPTS)], map[key := start + 150 * SECOND], start)
    requires key != other
    ensures CheckOutcome(Final(Final(locked, OtherClient(other, start)), AttemptsWhileLocked(key, start)),
                         key, start + 450 * SECOND, start + 450 * SECOND) == Allowed
  {
    var (mid, late, now) := (start + 300 * SECOND, start + 449 * SECOND, start + 450 * SECOND);
    var swept := Checked(locked, other, mid, mid);
    assert OtherClient(other, start)[1..] == [];
    assert Final(locked, OtherClient(other, start)) == swept;
    assert swept.lastSweep == mid && swept.lockouts == locked.lockouts;
    RecordsPileUp(swept, key, late, MAX_ATTEMPTS);
    CountAfterUnlock(Final(swept, AttemptsWhileLocked(key, start)), key, now);
  }

  lemma RecentOfTwo(early: int, late: int, cutoff: int)
    requires early <= cutoff < late
    ensures |Recent(Repeat(early, MAX_ATTEMPTS) + Repeat(late, MAX_ATTEMPTS), cutoff)| == MAX_ATTEMPTS
  {
    RecentSplit(Repeat(early, MAX_ATTEMPTS), Repeat(late, MAX_ATTEMPTS), cutoff);
    RecentNothing(Repeat(early, MAX_ATTEMPTS), cutoff);
    RecentAll(Repeat(late, MAX_ATTEMPTS), cutoff);
  }

  lemma {:induction false} RecentSplit(a: Times, b: Times, cutoff: int)
    ensures |Recent(a + b, cutoff)| == |Recent(a, cutoff)| + |Recent(b, cutoff)|
    decreases |a|
  {
    if a == [] {
      assert a + b == b;
    } else {
      assert (a + b)[1..] == a[1..] + b;
      RecentSplit(a[1..], b, cutoff);
    }
  }

  lemma {:induction false} RecentAll(times: Times, cutoff: int)
    requires forall i | 0 <= i < |times| :: times[i] > cutoff
    ensures Recent(times, cutoff) == times
  {
    if times != [] {
      RecentAll(times[1..], cutoff);
    }
  }
}
