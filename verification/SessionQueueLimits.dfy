// Exactly when the queue fails its callers: which evictions allow two guards of
// one session, and which sessions refuse for good.
module SessionQueueLimits {
  import opened Wrappers
  import opened SessionQueue

  // ------------------------------------------------------ the semaphore queue

  predicate Distinct(waiters: seq<Task>) {
    forall i, k | 0 <= i < k < |waiters| :: waiters[i] != waiters[k]
  }

  predicate AllWait(w: World, id: SlotId, waiters: seq<Task>) {
    forall i | 0 <= i < |waiters| :: w.PhaseOf(waiters[i]) == Waiting(id)
  }

  // Waiters are different tasks that wait for this slot, and a permit that is
  // out has a holder.
  ghost predicate QueuedAt(w: World, id: SlotId)
    requires id < |w.arena|
  {
    && Distinct(w.arena[id].waiters) && AllWait(w, id, w.arena[id].waiters)
    && (w.arena[id].free || exists t :: t in w.tasks && HoldsPermit(w, t, id))
  }

  predicate HoldsPermit(w: World, t: Task, id: SlotId) {
    w.PhaseOf(t).HasPermit() && w.PhaseOf(t).slot == id
  }

  ghost predicate Queued(w: World) {
    forall id | 0 <= id < |w.arena| :: QueuedAt(w, id)
  }

  lemma {:induction false} WithoutTaskKeeps(waiters: seq<Task>, t: Task)
    ensures forall u :: u in WithoutTask(waiters, t) <==> u in waiters && u != t
    ensures Distinct(waiters) ==> Distinct(WithoutTask(waiters, t))
  {
    if waiters != [] {
      var rest := WithoutTask(waiters[1..], t);
      WithoutTaskKeeps(waiters[1..], t);
      if Distinct(waiters) {
        assert Distinct(waiters[1..]) && waiters[0] !in waiters[1..];
        assert waiters[0] !in rest;
        assert Distinct([waiters[0]] + rest);
      }
    }
  }

  // A step moves task `t`, which did not wait at this slot or left its queue.
  lemma OthersStillWait(w: World, w': World, t: Task, id: SlotId, waiters: seq<Task>, waiters': seq<Task>)
    requires w'.tasks == w.tasks[t := w'.PhaseOf(t)]
    requires AllWait(w, id, waiters) && forall u | u in waiters' :: u in waiters && u != t
    ensures AllWait(w', id, waiters')
  {
    forall i | 0 <= i < |waiters'|
      ensures w'.PhaseOf(waiters'[i]) == Waiting(id)
    {
      assert waiters'[i] in waiters;
    }
  }

  lemma PermitHasHolder(w: World, w': World, t: Task, i: SlotId)
    requires Queued(w) && MovesTask(w, w', t) && i < |w.arena| && !w'.arena[i].free
    ensures exists u :: u in w'.tasks && HoldsPermit(w', u, i)
  {
    if HoldsPermit(w', t, i) {
      assert t in w'.tasks;
    } else {
      assert QueuedAt(w, i) && !w.arena[i].free;
      var u :| u in w.tasks && HoldsPermit(w, u, i);
      assert u in w'.tasks && HoldsPermit(w', u, i);
    }
  }

  // The queue of the slot at which the task moves.
  lemma OwnQueue(w: World, a: Action, id: SlotId)
    requires Enabled(w, a) && IsTaskStep(a) && w.PhaseOf(a.task).slot == id && id < |w.arena|
    requires Distinct(w.arena[id].waiters) && AllWait(w, id, w.arena[id].waiters)
    ensures var (w', waiters) := (Next(w, a), w.arena[id].waiters);
            || (w'.arena[id].waiters == waiters && a.task !in waiters)
            || (w'.arena[id].waiters == waiters + [a.task] && a.task !in waiters && w'.PhaseOf(a.task) == Waiting(id))
            || (waiters != [] && waiters[0] == a.task && w'.arena[id].waiters == waiters[1..])
            || w'.arena[id].waiters == WithoutTask(waiters, a.task)
  {
  }

  lemma OwnQueueStays(w: World, a: Action, id: SlotId)
    requires Enabled(w, a) && IsTaskStep(a) && w.PhaseOf(a.task).slot == id && id < |w.arena|
    requires Distinct(w.arena[id].waiters) && AllWait(w, id, w.arena[id].waiters)
    ensures var w' := Next(w, a); Distinct(w'.arena[id].waiters) && AllWait(w', id, w'.arena[id].waiters)
  {
    var (w', t, waiters) := (Next(w, a), a.task, w.arena[id].waiters);
    TaskStepMovesTask(w, a);
    OwnQueue(w, a, id);
    WithoutTaskKeeps(waiters, t);
    if w'.arena[id].waiters == waiters + [t] && t !in waiters {
      OthersStillWait(w, w', t, id, waiters, waiters);
    } else {
      OthersStillWait(w, w', t, id, waiters, w'.arena[id].waiters);
    }
  }

  lemma TaskStepKeepsQueued(w: World, a: Action)
    requires Queued(w) && Enabled(w, a) && IsTaskStep(a)
    ensures Queued(Next(w, a))
  {
    var (w', t) := (Next(w, a), a.task);
    TaskStepMovesTask(w, a);
    forall i | 0 <= i < |w'.arena|
      ensures QueuedAt(w', i)
    {
      assert QueuedAt(w, i);
      if i == w.PhaseOf(t).slot {
        OwnQueueStays(w, a, i);
      } else {
        OthersStillWait(w, w', t, i, w.arena[i].waiters, w'.arena[i].waiters);
      }
      if !w'.arena[i].free {
        PermitHasHolder(w, w', t, i);
      }
    }
  }

  lemma LookupKeepsQueued(w: World, a: Action)
    requires Queued(w) && Enabled(w, a) && a.Lookup?
    ensures Queued(Next(w, a))
  {
    var (w', t) := (Next(w, a), a.task);
    forall i | 0 <= i < |w'.arena|
      ensures QueuedAt(w', i)
    {
      if i < |w.arena| {
        assert QueuedAt(w, i) && w'.arena[i] == w.arena[i];
        OthersStillWait(w, w', t, i, w.arena[i].waiters, w'.arena[i].waiters);
        if !w.arena[i].free {
          var u :| u in w.tasks && HoldsPermit(w, u, i);
          assert u in w'.tasks && HoldsPermit(w', u, i);
        }
      }
    }
  }

  lemma NextKeepsQueued(w: World, a: Action)
    requires Queued(w) && Enabled(w, a)
    ensures Queued(Next(w, a))
  {
    if a.Lookup? {
      LookupKeepsQueued(w, a);
    } else if IsTaskStep(a) {
      TaskStepKeepsQueued(w, a);
    } else {
      EvictionKeepsQueued(w, Next(w, a));
    }
  }

  lemma EvictionKeepsQueued(w: World, w': World)
    requires Queued(w) && w'.arena == w.arena && w'.tasks == w.tasks
    ensures Queued(w')
  {
    forall i | 0 <= i < |w'.arena|
      ensures QueuedAt(w', i)
    {
      assert QueuedAt(w, i);
      if !w.arena[i].free {
        var u :| u in w.tasks && HoldsPermit(w, u, i);
        assert u in w'.tasks && HoldsPermit(w', u, i);
      }
    }
  }

  // ------------------------------------------------- first come, first served

  predicate Before(waiters: seq<Task>, t: Task, u: Task) {
    exists i, k | 0 <= i < k < |waiters| :: waiters[i] == t && waiters[k] == u
  }

  lemma BeforeInTail(first: Task, rest: seq<Task>, t: Task, u: Task)
    requires (first == t && u in rest) || Before(rest, t, u)
    ensures Before([first] + rest, t, u)
  {
    var all := [first] + rest;
    if first == t && u in rest {
      var m :| 0 <= m < |rest| && rest[m] == u;
      assert all[0] == t && all[m + 1] == u;
    } else {
      var m, n :| 0 <= m < n < |rest| && rest[m] == t && rest[n] == u;
      assert all[m + 1] == t && all[n + 1] == u;
    }
  }

  lemma TailOfBefore(waiters: seq<Task>, t: Task, u: Task)
    requires Before(waiters, t, u)
    ensures (waiters[0] == t && u in waiters[1..]) || Before(waiters[1..], t, u)
  {
    var i, k :| 0 <= i < k < |waiters| && waiters[i] == t && waiters[k] == u;
    assert waiters[1..][k - 1] == u;
    if i > 0 {
      assert waiters[1..][i - 1] == t;
    }
  }

  lemma {:induction false} WithoutTaskKeepsOrder(waiters: seq<Task>, gone: Task, t: Task, u: Task)
    requires Before(waiters, t, u) && t != gone && u != gone
    ensures Before(WithoutTask(waiters, gone), t, u)
  {
    var rest := WithoutTask(waiters[1..], gone);
    WithoutTaskKeeps(waiters[1..], gone);
    TailOfBefore(waiters, t, u);
    if !(waiters[0] == t && u in waiters[1..]) {
      WithoutTaskKeepsOrder(waiters[1..], gone, t, u);
    }
    if waiters[0] != gone {
      BeforeInTail(waiters[0], rest, t, u);
      assert WithoutTask(waiters, gone) == [waiters[0]] + rest;
    } else {
      assert WithoutTask(waiters, gone) == [] + rest == rest;
    }
  }

  lemma OrderStays(waiters: seq<Task>, waiters': seq<Task>, moved: Task, t: Task, u: Task)
    requires Before(waiters, t, u) && t != moved && u != moved
    requires || waiters' == waiters || waiters' == waiters + [moved] || waiters' == WithoutTask(waiters, moved)
             || (waiters[0] == moved && waiters' == waiters[1..])
    ensures Before(waiters', t, u)
  {
    if waiters' == WithoutTask(waiters, moved) {
      WithoutTaskKeepsOrder(waiters, moved, t, u);
    } else {
      var i, k :| 0 <= i < k < |waiters| && waiters[i] == t && waiters[k] == u;
      if waiters' == waiters || waiters' == waiters + [moved] {
        assert waiters'[i] == t && waiters'[k] == u;
      } else {
        assert waiters'[i - 1] == t && waiters'[k - 1] == u;
      }
    }
  }

  // `u` does not wait ahead of `t`.
  predicate Behind(waiters: seq<Task>, t: Task, u: Task) {
    t in waiters && (u in waiters ==> Before(waiters, t, u))
  }

  lemma BehindStays(w: World, a: Action, id: SlotId, t: Task, u: Task)
    requires Queued(w) && Enabled(w, a) && id < |w.arena| && t != u && Behind(w.arena[id].waiters, t, u)
    requires Next(w, a).PhaseOf(t) == Waiting(id)
    ensures id < |Next(w, a).arena| && Behind(Next(w, a).arena[id].waiters, t, u)
  {
    assert QueuedAt(w, id) && w.PhaseOf(t) == Waiting(id);
    if IsTaskStep(a) {
      TaskStepMovesTask(w, a);
      if w.PhaseOf(a.task).slot == id {
        OwnQueue(w, a, id);
        if a.task == t {
          LeavesQueue(w, a, id);
        } else {
          QueueKeepsBehind(w.arena[id].waiters, Next(w, a).arena[id].waiters, a.task, t, u);
        }
      }
    }
  }

  lemma QueueKeepsBehind(waiters: seq<Task>, waiters': seq<Task>, moved: Task, t: Task, u: Task)
    requires Behind(waiters, t, u) && t != u && moved != t && Distinct(waiters)
    requires || (waiters' == waiters && moved !in waiters) || (waiters' == waiters + [moved] && moved !in waiters)
             || waiters' == WithoutTask(waiters, moved) || (waiters != [] && waiters[0] == moved && waiters' == waiters[1..])
    ensures Behind(waiters', t, u)
  {
    WithoutTaskKeeps(waiters, moved);
    if moved == u {
      if waiters' == waiters + [moved] {
        var i :| 0 <= i < |waiters| && waiters[i] == t;
        assert waiters'[i] == t && waiters'[|waiters|] == u;
      }
    } else if u in waiters {
      OrderStays(waiters, waiters', moved, t, u);
    } else {
      var i :| 0 <= i < |waiters| && waiters[i] == t;
      assert waiters' == waiters + [moved] ==> waiters'[i] == t;
      assert waiters != [] && waiters[0] == moved && waiters' == waiters[1..] ==> waiters'[i - 1] == t;
    }
  }

  lemma LeavesQueue(w: World, a: Action, id: SlotId)
    requires Enabled(w, a) && IsTaskStep(a) && w.PhaseOf(a.task) == Waiting(id)
    ensures Next(w, a).PhaseOf(a.task) != Waiting(id)
  {
  }

  lemma NotGranted(w: World, id: SlotId, t: Task, u: Task)
    requires Queued(w) && id < |w.arena| && t != u && Behind(w.arena[id].waiters, t, u)
    ensures Enabled(w, Grant(u)) ==> w.PhaseOf(u) != Waiting(id)
  {
    var waiters := w.arena[id].waiters;
    assert QueuedAt(w, id);
    if u in waiters {
      var i, k :| 0 <= i < k < |waiters| && waiters[i] == t && waiters[k] == u;
      assert waiters[0] != waiters[k];
    }
  }

  ghost predicate KeepsWaiting(w: World, actions: seq<Action>, id: SlotId, t: Task)
    requires IsRun(w, actions)
    decreases |actions|
  {
    w.PhaseOf(t) == Waiting(id) && (actions == [] || KeepsWaiting(Next(w, actions[0]), actions[1..], id, t))
  }

  // No step of the run gives `u` the permit of the slot.
  ghost predicate NeverGranted(w: World, actions: seq<Action>, id: SlotId, u: Task)
    requires IsRun(w, actions)
    decreases |actions|
  {
    actions == [] ||
    (!(actions[0] == Grant(u) && w.PhaseOf(u) == Waiting(id)) && NeverGranted(Next(w, actions[0]), actions[1..], id, u))
  }

  // As long as `t` waits for a slot, nobody who was not ahead of it, whether
  // behind it in the queue or not there yet, is given the permit.
  lemma {:induction false} FirstComeFirstServed(w: World, actions: seq<Action>, id: SlotId, t: Task, u: Task)
    requires Queued(w) && IsRun(w, actions) && id < |w.arena| && t != u && Behind(w.arena[id].waiters, t, u)
    requires KeepsWaiting(w, actions, id, t)
    ensures NeverGranted(w, actions, id, u)
    decreases |actions|
  {
    if actions != [] {
      NotGranted(w, id, t, u);
      NextKeepsQueued(w, actions[0]);
      BehindStays(w, actions[0], id, t, u);
      FirstComeFirstServed(Next(w, actions[0]), actions[1..], id, t, u);
    }
  }

  // ---------------------------------------------- which evictions are harmful

  ghost predicate OneGuard(w: World) {
    forall session, t, t' | Guards(w, t, session) && Guards(w, t', session) :: t == t'
  }

  // However the run goes on, as long as it goes on harmlessly.
  ghost predicate SafeAhead(w: World) {
    forall more | IsRun(w, more) && HarmlessRun(w, more) :: OneGuard(RunEnd(w, more))
  }

  lemma CurrentIsSafe(w: World)
    requires Inv(w) && Current(w)
    ensures SafeAhead(w)
  {
    forall more | IsRun(w, more) && HarmlessRun(w, more)
      ensures OneGuard(RunEnd(w, more))
    {
      HarmlessRunKeepsCurrent(w, more);
      CurrentHasOneGuard(RunEnd(w, more));
    }
  }

  lemma CurrentHasOneGuard(w: World)
    requires Inv(w) && Current(w)
    ensures OneGuard(w)
  {
    forall session, t, t' | Guards(w, t, session) && Guards(w, t', session)
      ensures t == t'
    {
      assert w.tasks[t].Active() && w.tasks[t'].Active();
    }
  }

  lemma {:induction false} NoCheckIsHarmless(w: World, actions: seq<Action>)
    requires IsRun(w, actions) && forall a | a in actions :: !a.EvictCheck?
    ensures HarmlessRun(w, actions)
    decreases |actions|
  {
    if actions != [] {
      assert actions[0] in actions;
      NoCheckIsHarmless(Next(w, actions[0]), actions[1..]);
    }
  }

  lemma {:induction false} FreshTask(tasks: set<Task>) returns (t: Task)
    ensures forall u | u in tasks :: u < t
    decreases |tasks|
  {
    if tasks == {} {
      t := 0;
    } else {
      var u :| u in tasks;
      var rest := FreshTask(tasks - {u});
      t := if u < rest then rest else u + 1;
      forall v | v in tasks
        ensures v < t
      {
        assert v == u || v in tasks - {u};
      }
    }
  }

  lemma WaitersAreCounted(w: World, id: SlotId)
    requires id < |w.arena| && AllWait(w, id, w.arena[id].waiters)
    ensures w.arena[id].waiters == [] || CountedAt(w, id) != {}
  {
    if w.arena[id].waiters != [] {
      var t := w.arena[id].waiters[0];
      assert w.PhaseOf(t) == Waiting(id);
      assert t in CountedAt(w, id);
    }
  }

  // A slot without anything pending has no waiters, and its permit is free or
  // about to come back.
  lemma IdleSlot(w: World, id: SlotId)
    requires Inv(w) && Queued(w) && id < |w.arena| && w.arena[id].pending == 0
    ensures w.arena[id].waiters == []
    ensures w.arena[id].free || exists t :: t in w.tasks && w.tasks[t] == Releasing(id)
  {
    assert CountRightAt(w, id) && QueuedAt(w, id);
    assert CountedAt(w, id) == {};
    WaitersAreCounted(w, id);
    if !w.arena[id].free {
      var t :| t in w.tasks && HoldsPermit(w, t, id);
      assert t !in CountedAt(w, id);
    }
  }

  // The steps that make a removed slot available to the task that looked it up.
  lemma BecomesStale(w: World, t: Task, id: SlotId) returns (steps: seq<Action>)
    requires Inv(w) && Queued(w) && w.maxDepth >= 1 && w.evicting.Some?
    requires w.PhaseOf(t) == Looked(id) && id < |w.arena| && w.arena[id].pending == 0
    requires w.arena[id].session in w.evicting.value.marked
    ensures IsRun(w, steps) && (forall a | a in steps :: !a.EvictCheck?)
    ensures var w' := RunEnd(w, steps);
            && Stale(w', t, id) && w'.evicting.None? && w'.maxDepth == w.maxDepth && w'.tasks.Keys == w.tasks.Keys
            && w'.arena[id].session == w.arena[id].session
  {
    IdleSlot(w, id);
    var w1 := Next(w, EvictEnd);
    if w.arena[id].free {
      steps := [EvictEnd];
      assert steps[1..] == [];
      assert RunEnd(w, steps) == RunEnd(w1, []);
    } else {
      var h :| h in w.tasks && w.tasks[h] == Releasing(id);
      steps := [EvictEnd, Release(h)];
      TwoSteps(w, w1, Next(w1, Release(h)), steps);
    }
  }

  lemma TwoSteps(w: World, w1: World, w2: World, acts: seq<Action>)
    requires |acts| == 2
    requires Enabled(w, acts[0]) && w1 == Next(w, acts[0]) && Enabled(w1, acts[1]) && w2 == Next(w1, acts[1])
    ensures IsRun(w, acts) && RunEnd(w, acts) == w2
  {
    assert acts[1..][1..] == [];
    assert IsRun(w1, acts[1..]) && RunEnd(w1, acts[1..]) == w2;
  }

  lemma OverlapAfter(w: World, steps: seq<Action>, t: Task, id: SlotId) returns (more: seq<Action>)
    requires IsRun(w, steps) && forall a | a in steps :: !a.EvictCheck?
    requires var w' := RunEnd(w, steps); Stale(w', t, id) && w'.evicting.None? && w'.maxDepth >= 1 && t in w'.tasks
    ensures IsRun(w, more) && HarmlessRun(w, more) && !OneGuard(RunEnd(w, more))
  {
    var w' := RunEnd(w, steps);
    var t' := FreshTask(w'.tasks.Keys);
    var session := w'.arena[id].session;
    StaleTaskOverlaps(w', t, id, t', 0);
    var race := Acquisition(t, 0) + ([Lookup(t', session, 0)] + Acquisition(t', 0));
    RunConcat(w, steps, race);
    more := steps + race;
    NoCheckIsHarmless(w, more);
    TwoGuards(RunEnd(w, more), session, t, t');
  }

  lemma TwoGuards(w: World, session: string, t: Task, t': Task)
    requires Guards(w, t, session) && Guards(w, t', session) && t != t'
    ensures !OneGuard(w)
  {
  }

  // A check that marks a slot looked up by a task leads to two live guards.
  lemma HarmfulCheckOverlaps(w: World, a: Action) returns (more: seq<Action>)
    requires Inv(w) && Queued(w) && w.maxDepth >= 1 && Enabled(w, a) && !HarmlessCheck(w, a)
    ensures IsRun(Next(w, a), more) && HarmlessRun(Next(w, a), more) && !OneGuard(RunEnd(Next(w, a), more))
  {
    var id := w.slots[a.session];
    var t :| t in w.tasks && w.tasks[t] == Looked(id);
    NextKeepsInv(w, a);
    NextKeepsQueued(w, a);
    var steps := BecomesStale(Next(w, a), t, id);
    more := OverlapAfter(Next(w, a), steps, t, id);
  }

  // Main result 1: exactly which checks are safe, at every state of a run that
  // was harmless so far.
  lemma CheckIsSafeIff(w: World, a: Action)
    requires Inv(w) && Queued(w) && Current(w) && w.maxDepth >= 1 && Enabled(w, a)
    ensures HarmlessCheck(w, a) <==> SafeAhead(Next(w, a))
  {
    if HarmlessCheck(w, a) {
      NextKeepsInv(w, a);
      NextKeepsCurrent(w, a);
      CurrentIsSafe(Next(w, a));
    } else {
      var more := HarmfulCheckOverlaps(w, a);
    }
  }

  // After every prefix of the run, every harmless continuation keeps one guard.
  ghost predicate AlwaysSafe(w: World, actions: seq<Action>)
    requires IsRun(w, actions)
    decreases |actions|
  {
    SafeAhead(w) && (actions == [] || AlwaysSafe(Next(w, actions[0]), actions[1..]))
  }

  lemma {:induction false} RunIsSafeIff(w: World, actions: seq<Action>)
    requires Inv(w) && Queued(w) && Current(w) && w.maxDepth >= 1 && IsRun(w, actions)
    ensures HarmlessRun(w, actions) <==> AlwaysSafe(w, actions)
    decreases |actions|
  {
    CurrentIsSafe(w);
    if actions != [] {
      var w' := Next(w, actions[0]);
      CheckIsSafeIff(w, actions[0]);
      if HarmlessCheck(w, actions[0]) {
        NextKeepsInv(w, actions[0]);
        NextKeepsQueued(w, actions[0]);
        NextKeepsCurrent(w, actions[0]);
        NextKeepsDepth(w, actions[0]);
        RunIsSafeIff(w', actions[1..]);
      }
    }
  }

  lemma NextKeepsDepth(w: World, a: Action)
    requires Enabled(w, a)
    ensures Next(w, a).maxDepth == w.maxDepth
  {
  }

  lemma HarmlessFromStartIff(maxDepth: nat, ttl: int, actions: seq<Action>)
    requires maxDepth >= 1 && IsRun(Start(maxDepth, ttl), actions)
    ensures HarmlessRun(Start(maxDepth, ttl), actions) <==> AlwaysSafe(Start(maxDepth, ttl), actions)
  {
    StartInv(maxDepth, ttl);
    RunIsSafeIff(Start(maxDepth, ttl), actions);
  }

  // ------------------------------------------ which sessions refuse for good

  // A slot with as many dropped futures as the queue is deep.
  ghost predicate Full(w: World, id: SlotId) {
    |AbandonedAt(w, id)| >= w.maxDepth
  }

  lemma {:induction false} FullRefusesAll(w: World, actions: seq<Action>, id: SlotId)
    requires Inv(w) && IsRun(w, actions) && Full(w, id) && id < |w.arena|
    ensures AllRefused(w, actions, id)
    decreases |actions|
  {
    if actions != [] {
      assert CountRightAt(w, id);
      NextKeepsInv(w, actions[0]);
      NextKeepsDepth(w, actions[0]);
      AbandonedStay(w, actions[0], id);
      FullRefusesAll(Next(w, actions[0]), actions[1..], id);
    }
  }

  // The next step of a counted task towards its decrement; no other task can
  // keep it from taking it.
  function OwnStep(p: Phase, t: Task): Action
    requires p.Counted()
  {
    match p
    case Admitted(_) => Join(t)
    case Waiting(_) => Expire(t)
    case Permitted(_) => Touch(t, 0)
    case Guarding(_) => Drop(t)
    case _ => GiveUp(t)
  }

  function StepsLeft(p: Phase): nat {
    if p.Admitted? then 3 else if p.Waiting? || p.Permitted? then 2 else if p.Counted() then 1 else 0
  }

  lemma OwnStepAdvances(w: World, t: Task, id: SlotId)
    requires Inv(w) && t in CountedAt(w, id) && id < |w.arena|
    ensures var a := OwnStep(w.PhaseOf(t), t);
            && Enabled(w, a) && IsTaskStep(a) && a.task == t
            && var p' := Next(w, a).PhaseOf(t);
               StepsLeft(p') == StepsLeft(w.PhaseOf(t)) - 1 && (p'.Idle? || p'.slot == id) && !p'.Abandoned?
  {
  }

  // What draining leaves alone.
  ghost predicate SameQueue(w: World, w': World, id: SlotId) {
    && w'.slots == w.slots && w'.evicting == w.evicting && w'.maxDepth == w.maxDepth && |w'.arena| == |w.arena|
    && AbandonedAt(w', id) == AbandonedAt(w, id)
    && forall t | t !in CountedAt(w, id) :: w'.PhaseOf(t) == w.PhaseOf(t)
  }

  lemma OwnStepKeepsQueue(w: World, t: Task, id: SlotId)
    requires Inv(w) && t in CountedAt(w, id) && id < |w.arena| && Enabled(w, OwnStep(w.PhaseOf(t), t))
    ensures var w' := Next(w, OwnStep(w.PhaseOf(t), t));
            && Inv(w') && SameQueue(w, w', id)
            && CountedAt(w', id) == (if w'.PhaseOf(t).Counted() then CountedAt(w, id) else CountedAt(w, id) - {t})
  {
    var a := OwnStep(w.PhaseOf(t), t);
    OwnStepAdvances(w, t, id);
    NextKeepsInv(w, a);
    TaskStepMovesTask(w, a);
    MoveKeepsQueue(w, Next(w, a), t, id);
  }

  lemma MoveKeepsQueue(w: World, w': World, t: Task, id: SlotId)
    requires MovesTask(w, w', t) && t in CountedAt(w, id)
    requires var p' := w'.PhaseOf(t); (p'.Idle? || p'.slot == id) && !p'.Abandoned?
    ensures SameQueue(w, w', id)
    ensures CountedAt(w', id) == (if w'.PhaseOf(t).Counted() then CountedAt(w, id) else CountedAt(w, id) - {t})
  {
    forall u | u != t
      ensures w'.PhaseOf(u) == w.PhaseOf(u) && (u in w'.tasks <==> u in w.tasks)
    {
    }
  }

  // Tasks counted at the slot take their own steps until none is left.
  lemma {:induction false} Drains(w: World, id: SlotId, t: Task) returns (steps: seq<Action>)
    requires Inv(w) && id < |w.arena| && (CountedAt(w, id) != {} ==> t in CountedAt(w, id))
    ensures IsRun(w, steps) && Inv(RunEnd(w, steps)) && SameQueue(w, RunEnd(w, steps), id)
    ensures CountedAt(RunEnd(w, steps), id) == {}
    ensures forall a | a in steps :: IsTaskStep(a) && a.task in CountedAt(w, id)
    decreases CountedAt(w, id), StepsLeft(w.PhaseOf(t))
  {
    if CountedAt(w, id) == {} {
      steps := [];
    } else {
      var a := OwnStep(w.PhaseOf(t), t);
      OwnStepAdvances(w, t, id);
      OwnStepKeepsQueue(w, t, id);
      var w' := Next(w, a);
      var u := t;
      if t !in CountedAt(w', id) && CountedAt(w', id) != {} {
        u :| u in CountedAt(w', id);
      }
      var rest := Drains(w', id, u);
      steps := [a] + rest;
      assert steps[1..] == rest;
    }
  }

  function Call(t: Task, session: string): seq<Action> {
    [Lookup(t, session, 0), CountIn(t)]
  }

  // With fewer dropped futures a caller can always be admitted: the others leave
  // by their own steps, a running eviction ends, and the caller looks up.
  lemma IsAdmitted(w: World, session: string, id: SlotId, t: Task) returns (steps: seq<Action>)
    requires Inv(w) && session in w.slots && w.slots[session] == id
    requires w.evicting.Some? ==> session !in w.evicting.value.marked
    requires !Full(w, id) && w.PhaseOf(t).Idle?
    ensures IsRun(w, steps) && IsRun(RunEnd(w, steps), Call(t, session))
    ensures RunEnd(RunEnd(w, steps), Call(t, session)).PhaseOf(t) == Admitted(id)
    ensures !AllRefused(RunEnd(w, steps), Call(t, session), id)
    ensures forall a | a in steps :: a.EvictEnd? || (IsTaskStep(a) && a.task in CountedAt(w, id))
  {
    var some := AnyCounted(w, id);
    var drain := Drains(w, id, some);
    var w1 := RunEnd(w, drain);
    steps := drain + (if w.evicting.Some? then [EvictEnd] else []);
    EndsEviction(w, drain, w1, steps);
    ReadyForCall(w, w1, RunEnd(w, steps), session, id, t);
    LooksUpAndCounts(RunEnd(w, steps), session, id, t);
  }

  lemma ReadyForCall(w: World, w1: World, w2: World, session: string, id: SlotId, t: Task)
    requires Inv(w) && Inv(w1) && SameQueue(w, w1, id) && CountedAt(w1, id) == {} && !Full(w, id)
    requires session in w.slots && w.slots[session] == id && w.PhaseOf(t).Idle?
    requires w.evicting.Some? ==> session !in w.evicting.value.marked
    requires w2 == if w.evicting.Some? then Next(w1, EvictEnd) else w1
    ensures w2.evicting.None? && session in w2.slots && w2.slots[session] == id && id < |w2.arena|
    ensures w2.arena[id].pending < w2.maxDepth && w2.PhaseOf(t).Idle?
  {
    Drained(w1, id);
    assert t !in CountedAt(w, id);
  }

  lemma Drained(w: World, id: SlotId)
    requires Inv(w) && id < |w.arena| && CountedAt(w, id) == {}
    ensures w.arena[id].pending == |AbandonedAt(w, id)|
  {
    assert CountRightAt(w, id);
  }

  lemma AnyCounted(w: World, id: SlotId) returns (t: Task)
    ensures CountedAt(w, id) != {} ==> t in CountedAt(w, id)
  {
    t := 0;
    if CountedAt(w, id) != {} {
      t :| t in CountedAt(w, id);
    }
  }

  lemma EndsEviction(w: World, drain: seq<Action>, w1: World, steps: seq<Action>)
    requires IsRun(w, drain) && w1 == RunEnd(w, drain) && w1.evicting == w.evicting
    requires steps == drain + (if w.evicting.Some? then [EvictEnd] else [])
    ensures IsRun(w, steps)
    ensures RunEnd(w, steps) == if w.evicting.Some? then Next(w1, EvictEnd) else w1
  {
    if w.evicting.Some? {
      assert [EvictEnd][1..] == [];
      assert IsRun(w1, [EvictEnd]) && RunEnd(w1, [EvictEnd]) == Next(w1, EvictEnd);
      RunConcat(w, drain, [EvictEnd]);
    } else {
      assert steps == drain;
    }
  }

  lemma LooksUpAndCounts(w: World, session: string, id: SlotId, t: Task)
    requires w.evicting.None? && session in w.slots && w.slots[session] == id && id < |w.arena|
    requires w.arena[id].pending < w.maxDepth && w.PhaseOf(t).Idle?
    ensures var run := Call(t, session);
            IsRun(w, run) && RunEnd(w, run).PhaseOf(t) == Admitted(id) && !AllRefused(w, run, id)
  {
    var run := Call(t, session);
    var w1 := Next(w, run[0]);
    var w2 := Next(w1, run[1]);
    TwoSteps(w, w1, w2, run);
    assert run[1..][0] == CountIn(t) && !AllRefused(w1, run[1..], id);
  }

  lemma {:induction false} AllRefusedLater(w: World, a: seq<Action>, b: seq<Action>, id: SlotId)
    requires IsRun(w, a) && IsRun(RunEnd(w, a), b) && IsRun(w, a + b) && AllRefused(w, a + b, id)
    ensures AllRefused(RunEnd(w, a), b, id)
    decreases |a|
  {
    if a == [] {
      assert a + b == b;
    } else {
      assert (a + b)[1..] == a[1..] + b;
      AllRefusedLater(Next(w, a[0]), a[1..], b, id);
    }
  }

  lemma NotAllRefused(w: World, a: seq<Action>, b: seq<Action>, id: SlotId)
    requires IsRun(w, a) && IsRun(RunEnd(w, a), b) && IsRun(w, a + b) && !AllRefused(RunEnd(w, a), b, id)
    ensures exists more :: IsRun(w, more) && !AllRefused(w, more, id)
  {
    if AllRefused(w, a + b, id) {
      AllRefusedLater(w, a, b, id);
    }
  }

  // Main result 2: exactly when every later caller of a session is refused,
  // however the run goes on.
  lemma RefusesForGoodIff(w: World, session: string, id: SlotId)
    requires Inv(w) && session in w.slots && w.slots[session] == id
    requires w.evicting.Some? ==> session !in w.evicting.value.marked
    ensures (forall more | IsRun(w, more) :: AllRefused(w, more, id)) <==> Full(w, id)
  {
    if Full(w, id) {
      forall more | IsRun(w, more)
        ensures AllRefused(w, more, id)
      {
        FullRefusesAll(w, more, id);
      }
    } else {
      var t := FreshTask(w.tasks.Keys);
      assert t !in w.tasks;
      var steps := IsAdmitted(w, session, id, t);
      RunConcat(w, steps, Call(t, session));
      NotAllRefused(w, steps, Call(t, session), id);
    }
  }

  // A run that gets there, for every depth: callers that drop their future while
  // they wait for the permit.
  function DropsFuture(t: Task, session: string): seq<Action> {
    [Lookup(t, session, 0), CountIn(t), Join(t), Abandon(t)]
  }

  function AfterDrops(maxDepth: nat, ttl: int, session: string, n: nat): World {
    if n == 0 then Start(maxDepth, ttl)
    else World(maxDepth, ttl, map[session := 0], [Slot(session, true, [], n, 0)], Dropped(n), None)
  }

  function Dropped(n: nat): Tasks {
    if n == 0 then map[] else Dropped(n - 1)[n - 1 := Abandoned(0)]
  }

  lemma {:induction false} DroppedTasks(n: nat)
    ensures forall t | t in Dropped(n) :: t < n && Dropped(n)[t] == Abandoned(0)
  {
    if n > 0 {
      DroppedTasks(n - 1);
    }
  }

  // A task that looked up a free, unqueued slot and drops its future.
  lemma DropsAlone(w: World, t: Task, id: SlotId)
    requires w.PhaseOf(t) == Looked(id) && id < |w.arena|
    requires w.arena[id].free && w.arena[id].waiters == [] && w.arena[id].pending < w.maxDepth
    ensures var (run, s) := ([CountIn(t), Join(t), Abandon(t)], w.arena[id]);
            && IsRun(w, run)
            && RunEnd(w, run) == w.WithSlot(id, s.(pending := s.pending + 1)).At(t, Abandoned(id))
  {
    var s := w.arena[id];
    var s1 := s.(pending := s.pending + 1);
    var s2 := s1.(waiters := [t]);
    var w1 := w.WithSlot(id, s1).At(t, Admitted(id));
    var w2 := w.WithSlot(id, s2).At(t, Waiting(id));
    var w3 := w.WithSlot(id, s1).At(t, Abandoned(id));
    assert Enabled(w1, Join(t)) && Next(w1, Join(t)) == w2 by {
      LastUpdateShows(w, id, s1, s2, t, Admitted(id), Waiting(id));
      JoinIs(w1, t, id);
    }
    assert Enabled(w2, Abandon(t)) && Next(w2, Abandon(t)) == w3 by {
      LastUpdateShows(w, id, s2, s1, t, Waiting(id), Abandoned(id));
      assert WithoutTask([t], t) == WithoutTask([t][1..], t) == [];
    }
    ThreeSteps(w, w1, w2, w3, [CountIn(t), Join(t), Abandon(t)]);
  }

  lemma ThreeSteps(w: World, w1: World, w2: World, w3: World, acts: seq<Action>)
    requires |acts| == 3
    requires Enabled(w, acts[0]) && w1 == Next(w, acts[0]) && Enabled(w1, acts[1]) && w2 == Next(w1, acts[1])
    requires Enabled(w2, acts[2]) && w3 == Next(w2, acts[2])
    ensures IsRun(w, acts) && RunEnd(w, acts) == w3
  {
    TwoSteps(w1, w2, w3, acts[1..]);
  }

  lemma LooksUpAgain(maxDepth: nat, ttl: int, session: string, n: nat, w1: World)
    requires w1 == World(maxDepth, ttl, map[session := 0], [Slot(session, true, [], n, 0)], Dropped(n)[n := Looked(0)], None)
    ensures var w := AfterDrops(maxDepth, ttl, session, n);
            Enabled(w, Lookup(n, session, 0)) && Next(w, Lookup(n, session, 0)) == w1
  {
    DroppedTasks(n);
  }

  lemma OneMoreDrop(maxDepth: nat, ttl: int, session: string, n: nat)
    requires n < maxDepth
    ensures var w := AfterDrops(maxDepth, ttl, session, n);
            IsRun(w, DropsFuture(n, session)) && RunEnd(w, DropsFuture(n, session)) == AfterDrops(maxDepth, ttl, session, n + 1)
  {
    var w := AfterDrops(maxDepth, ttl, session, n);
    var s := Slot(session, true, [], n, 0);
    var w1 := World(maxDepth, ttl, map[session := 0], [s], Dropped(n)[n := Looked(0)], None);
    LooksUpAgain(maxDepth, ttl, session, n, w1);
    DropsAlone(w1, n, 0);
    var run := DropsFuture(n, session);
    assert run[1..] == [CountIn(n), Join(n), Abandon(n)];
    OneStepThen(w, w1, run);
    OneMoreDropped(maxDepth, ttl, session, n, w1);
  }

  lemma OneStepThen(w: World, w1: World, acts: seq<Action>)
    requires acts != [] && Enabled(w, acts[0]) && w1 == Next(w, acts[0]) && IsRun(w1, acts[1..])
    ensures IsRun(w, acts) && RunEnd(w, acts) == RunEnd(w1, acts[1..])
  {
  }

  lemma OneMoreDropped(maxDepth: nat, ttl: int, session: string, n: nat, w1: World)
    requires w1 == World(maxDepth, ttl, map[session := 0], [Slot(session, true, [], n, 0)], Dropped(n)[n := Looked(0)], None)
    ensures w1.WithSlot(0, w1.arena[0].(pending := n + 1)).At(n, Abandoned(0)) == AfterDrops(maxDepth, ttl, session, n + 1)
  {
    var s := w1.arena[0];
    assert [s][0 := s.(pending := n + 1)] == [s.(pending := n + 1)];
    assert w1.tasks[n := Abandoned(0)] == Dropped(n + 1);
  }

  lemma {:induction false} DropsInARow(maxDepth: nat, ttl: int, session: string, n: nat) returns (actions: seq<Action>)
    requires n <= maxDepth
    ensures IsRun(Start(maxDepth, ttl), actions)
    ensures RunEnd(Start(maxDepth, ttl), actions) == AfterDrops(maxDepth, ttl, session, n)
  {
    if n == 0 {
      actions := [];
    } else {
      var before := DropsInARow(maxDepth, ttl, session, n - 1);
      OneMoreDrop(maxDepth, ttl, session, n - 1);
      RunConcat(Start(maxDepth, ttl), before, DropsFuture(n - 1, session));
      actions := before + DropsFuture(n - 1, session);
    }
  }

  // Hence for every depth and session some run leaves the session refusing for good.
  lemma FullIsReached(maxDepth: nat, ttl: int, session: string)
    requires maxDepth >= 1
    ensures exists actions ::
              IsRun(Start(maxDepth, ttl), actions) && Exhausted(RunEnd(Start(maxDepth, ttl), actions), session, 0)
  {
    var actions := DropsInARow(maxDepth, ttl, session, maxDepth);
    StartInv(maxDepth, ttl);
    RunKeepsInv(Start(maxDepth, ttl), actions);
    var w := RunEnd(Start(maxDepth, ttl), actions);
    DroppedTasks(maxDepth);
    Drained(w, 0);
    assert Exhausted(w, session, 0);
  }
}
