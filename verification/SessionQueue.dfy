// The per-session queue as interleaved atomic steps: slot lookup under the map
// lock, the atomic `pending` counter, one semaphore permit with a FIFO queue,
// guard drop (decrement, then release), and an eviction that checks slots one
// by one before it removes them.
module SessionQueue {
  import opened Wrappers
  import opened Collections

  type Task = nat
  type SlotId = nat

  datatype Slot = Slot(session: string, free: bool, waiters: seq<Task>, pending: int, lastActive: int)

  // Where a task is between two atomic steps.
  datatype Phase =
    | Idle
    | Looked(slot: SlotId)      // holds the slot, has not counted itself yet
    | Rejected(slot: SlotId)    // found the queue full, still counted
    | Admitted(slot: SlotId)    // counted, not yet in the semaphore queue
    | Waiting(slot: SlotId)     // in the semaphore queue
    | Permitted(slot: SlotId)   // has the permit, guard not built yet
    | Guarding(slot: SlotId)    // owns a live guard
    | TimedOut(slot: SlotId)    // left the queue, still counted
    | Releasing(slot: SlotId)   // guard dropped and uncounted, permit not back yet
    | Abandoned(slot: SlotId)   // the future was dropped, nobody will uncount it
  {
    // Incremented and not yet decremented, with a decrement still to come.
    predicate Counted() {
      Rejected? || InQueue()
    }

    predicate InQueue() {
      Admitted? || Waiting? || Permitted? || Guarding? || TimedOut?
    }

    predicate HasPermit() {
      Permitted? || Guarding? || Releasing?
    }

    // It can still lead to a guard, or is one.
    predicate Active() {
      Looked? || Counted() || Abandoned?
    }
  }

  // A running `evict_idle` holds the map lock.
  datatype Eviction = Eviction(now: int, marked: set<string>)

  datatype World = World(
    maxDepth: nat, ttl: int,
    slots: map<string, SlotId>, arena: seq<Slot>, tasks: map<Task, Phase>, evicting: Option<Eviction>)
  {
    function PhaseOf(t: Task): Phase {
      if t in tasks then tasks[t] else Idle
    }

    function At(t: Task, p: Phase): World {
      this.(tasks := tasks[t := p])
    }

    function WithSlot(id: SlotId, s: Slot): World
      requires id < |arena|
    {
      this.(arena := arena[id := s])
    }
  }

  datatype Action =
    | Lookup(task: Task, session: string, now: int)
    | CountIn(task: Task)
    | Join(task: Task)
    | Grant(task: Task)
    | Touch(task: Task, now: int)
    | Expire(task: Task)
    | GiveUp(task: Task)
    | Abandon(task: Task)
    | Drop(task: Task)
    | Release(task: Task)
    | EvictBegin(now: int)
    | EvictCheck(session: string)
    | EvictEnd

  predicate SlotInRange(w: World, p: Phase) {
    p.Idle? || p.slot < |w.arena|
  }

  // An eviction may end after any of its checks, which only adds runs to those
  // of the source's loop over all sessions.
  predicate Enabled(w: World, a: Action) {
    match a
    case Lookup(t, session, _) => w.PhaseOf(t).Idle? && w.evicting.None?
    case CountIn(t) => w.PhaseOf(t).Looked? && SlotInRange(w, w.PhaseOf(t))
    case Join(t) => w.PhaseOf(t).Admitted? && SlotInRange(w, w.PhaseOf(t))
    case Grant(t) =>
      var p := w.PhaseOf(t);
      p.Waiting? && SlotInRange(w, p) && w.arena[p.slot].free && w.arena[p.slot].waiters != [] && w.arena[p.slot].waiters[0] == t
    case Touch(t, _) => w.PhaseOf(t).Permitted? && SlotInRange(w, w.PhaseOf(t))
    case Expire(t) => w.PhaseOf(t).Waiting? && SlotInRange(w, w.PhaseOf(t))
    case GiveUp(t) => (w.PhaseOf(t).Rejected? || w.PhaseOf(t).TimedOut?) && SlotInRange(w, w.PhaseOf(t))
    // a future is dropped where it waits: for the permit, or for `last_active`
    case Abandon(t) => (w.PhaseOf(t).Waiting? || w.PhaseOf(t).Permitted?) && SlotInRange(w, w.PhaseOf(t))
    case Drop(t) => w.PhaseOf(t).Guarding? && SlotInRange(w, w.PhaseOf(t))
    case Release(t) => w.PhaseOf(t).Releasing? && SlotInRange(w, w.PhaseOf(t))
    case EvictBegin(_) => w.evicting.None?
    case EvictCheck(session) => w.evicting.Some? && session in w.slots && w.slots[session] < |w.arena|
    case EvictEnd => w.evicting.Some?
  }

  function WithoutTask(waiters: seq<Task>, t: Task): seq<Task> {
    if waiters == [] then [] else (if waiters[0] == t then [] else [waiters[0]]) + WithoutTask(waiters[1..], t)
  }

  ghost function IdleSessions(w: World, now: int): set<string>
    requires forall k | k in w.slots :: w.slots[k] < |w.arena|
  {
    set k | k in w.slots && IdleFor(w, w.arena[w.slots[k]], now)
  }

  predicate IdleFor(w: World, s: Slot, now: int) {
    now - s.lastActive > w.ttl && s.pending == 0
  }

  function Next(w: World, a: Action): World
    requires Enabled(w, a)
  {
    match a
    case Lookup(t, session, now) =>
      if session in w.slots then w.At(t, Looked(w.slots[session]))
      else w.(slots := w.slots[session := |w.arena|], arena := w.arena + [Slot(session, true, [], 0, now)]).At(t, Looked(|w.arena|))
    case CountIn(t) =>
      var id := w.PhaseOf(t).slot;
      var s := w.arena[id];
      w.WithSlot(id, s.(pending := s.pending + 1)).At(t, if s.pending >= w.maxDepth then Rejected(id) else Admitted(id))
    case Join(t) =>
      var id := w.PhaseOf(t).slot;
      var s := w.arena[id];
      w.WithSlot(id, s.(waiters := s.waiters + [t])).At(t, Waiting(id))
    case Grant(t) =>
      var id := w.PhaseOf(t).slot;
      var s := w.arena[id];
      w.WithSlot(id, s.(free := false, waiters := s.waiters[1..])).At(t, Permitted(id))
    case Touch(t, now) =>
      var id := w.PhaseOf(t).slot;
      w.WithSlot(id, w.arena[id].(lastActive := now)).At(t, Guarding(id))
    case Expire(t) =>
      var id := w.PhaseOf(t).slot;
      var s := w.arena[id];
      w.WithSlot(id, s.(waiters := WithoutTask(s.waiters, t))).At(t, TimedOut(id))
    case GiveUp(t) =>
      var id := w.PhaseOf(t).slot;
      var s := w.arena[id];
      w.WithSlot(id, s.(pending := s.pending - 1)).At(t, Idle)
    case Abandon(t) =>
      var id := w.PhaseOf(t).slot;
      var s := w.arena[id];
      w.WithSlot(id, if w.PhaseOf(t).Permitted? then s.(free := true) else s.(waiters := WithoutTask(s.waiters, t))).At(t, Abandoned(id))
    case Drop(t) =>
      var id := w.PhaseOf(t).slot;
      var s := w.arena[id];
      w.WithSlot(id, s.(pending := s.pending - 1)).At(t, Releasing(id))
    case Release(t) =>
      var id := w.PhaseOf(t).slot;
      w.WithSlot(id, w.arena[id].(free := true)).At(t, Idle)
    case EvictBegin(now) => w.(evicting := Some(Eviction(now, {})))
    case EvictCheck(session) =>
      var e := w.evicting.value;
      if IdleFor(w, w.arena[w.slots[session]], e.now) then w.(evicting := Some(e.(marked := e.marked + {session}))) else w
    case EvictEnd => w.(slots := w.slots - w.evicting.value.marked, evicting := None)
  }

  // --------------------------------------------------------------- invariants

  type Tasks = map<Task, Phase>

  ghost function CountedIn(tasks: Tasks, id: SlotId): set<Task> {
    set t | t in tasks && tasks[t].Counted() && tasks[t].slot == id
  }

  ghost function InQueueIn(tasks: Tasks, id: SlotId): set<Task> {
    set t | t in tasks && tasks[t].InQueue() && tasks[t].slot == id
  }

  ghost function AbandonedIn(tasks: Tasks, id: SlotId): set<Task> {
    set t | t in tasks && tasks[t] == Abandoned(id)
  }

  ghost function CountedAt(w: World, id: SlotId): set<Task> {
    CountedIn(w.tasks, id)
  }

  ghost function InQueueAt(w: World, id: SlotId): set<Task> {
    InQueueIn(w.tasks, id)
  }

  ghost function AbandonedAt(w: World, id: SlotId): set<Task> {
    AbandonedIn(w.tasks, id)
  }

  // Every task refers to an existing slot and every slot to its session.
  ghost predicate WellFormed(w: World) {
    && (forall t | t in w.tasks :: SlotInRange(w, w.tasks[t]))
    && (forall k | k in w.slots :: w.slots[k] < |w.arena| && w.arena[w.slots[k]].session == k)
    && (w.evicting.Some? ==> w.evicting.value.marked <= w.slots.Keys)
  }

  // `pending` counts all tasks that incremented and have not yet decremented,
  // abandoned ones for ever, and those admitted never exceed the depth.
  ghost predicate CountsRight(w: World) {
    forall id | 0 <= id < |w.arena| :: CountRightAt(w, id)
  }

  ghost predicate CountRightAt(w: World, id: SlotId)
    requires id < |w.arena|
  {
    && w.arena[id].pending == |CountedAt(w, id)| + |AbandonedAt(w, id)|
    && |InQueueAt(w, id)| <= w.maxDepth
  }

  // The permit is free or exactly one task has it.
  ghost predicate Exclusive(w: World) {
    && (forall t | t in w.tasks && w.tasks[t].HasPermit() && w.tasks[t].slot < |w.arena| :: !w.arena[w.tasks[t].slot].free)
    && (forall t, t' | t in w.tasks && t' in w.tasks && w.tasks[t].HasPermit() && w.tasks[t'].HasPermit() &&
          w.tasks[t].slot == w.tasks[t'].slot :: t == t')
  }

  ghost predicate Inv(w: World) {
    WellFormed(w) && CountsRight(w) && Exclusive(w)
  }

  function Start(maxDepth: nat, ttl: int): World {
    World(maxDepth, ttl, map[], [], map[], None)
  }

  lemma StartInv(maxDepth: nat, ttl: int)
    ensures Inv(Start(maxDepth, ttl))
  {
  }

  // One task moves from one phase to another: what that does to a count.
  lemma CountMoves(before: set<Task>, after: set<Task>, t: Task, was: bool, is_: bool)
    requires (t in before <==> was) && (t in after <==> is_)
    requires forall u | u != t :: u in before <==> u in after
    ensures |after| == |before| + (if is_ then 1 else 0) - (if was then 1 else 0)
  {
    assert before - {t} == after - {t};
    assert |before - {t}| == |before| - (if was then 1 else 0);
    assert |after - {t}| == |after| - (if is_ then 1 else 0);
  }

  // What a task in this phase contributes to `pending`.
  function Weight(p: Phase): int {
    if p.Counted() || p.Abandoned? then 1 else 0
  }

  predicate IsPhase(tasks: Tasks, t: Task, p: Phase) {
    if t in tasks then tasks[t] == p else p.Idle?
  }

  function One(b: bool): int {
    if b then 1 else 0
  }

  // One task moves from phase `p` to `p'`: what that does to the three counts.
  lemma CountsMove(tasks: Tasks, tasks': Tasks, t: Task, p: Phase, p': Phase, i: SlotId)
    requires IsPhase(tasks, t, p) && tasks' == tasks[t := p']
    ensures |CountedIn(tasks', i)| ==
            |CountedIn(tasks, i)| + One(p'.Counted() && p'.slot == i) - One(p.Counted() && p.slot == i)
    ensures |InQueueIn(tasks', i)| ==
            |InQueueIn(tasks, i)| + One(p'.InQueue() && p'.slot == i) - One(p.InQueue() && p.slot == i)
    ensures |AbandonedIn(tasks', i)| ==
            |AbandonedIn(tasks, i)| + One(p' == Abandoned(i)) - One(p == Abandoned(i))
  {
    CountMoves(CountedIn(tasks, i), CountedIn(tasks', i), t, p.Counted() && p.slot == i, p'.Counted() && p'.slot == i);
    CountMoves(InQueueIn(tasks, i), InQueueIn(tasks', i), t, p.InQueue() && p.slot == i, p'.InQueue() && p'.slot == i);
    CountMoves(AbandonedIn(tasks, i), AbandonedIn(tasks', i), t, p == Abandoned(i), p' == Abandoned(i));
  }

  lemma QueueIsCounted(tasks: Tasks, i: SlotId)
    ensures |InQueueIn(tasks, i)| <= |CountedIn(tasks, i)|
  {
    SubsetSize(InQueueIn(tasks, i), CountedIn(tasks, i));
  }

  // A step that moves `t` at slot `id` and leaves every other task alone.
  lemma MoveKeepsCounts(w: World, w': World, t: Task, p: Phase, id: SlotId)
    requires CountsRight(w) && id < |w.arena| && |w'.arena| == |w.arena|
    requires w'.tasks == w.tasks[t := p] && w'.maxDepth == w.maxDepth
    requires (w.PhaseOf(t).Idle? || w.PhaseOf(t).slot == id) && (p.Idle? || p.slot == id)
    requires forall i | 0 <= i < |w.arena| && i != id :: w'.arena[i].pending == w.arena[i].pending
    requires w'.arena[id].pending == w.arena[id].pending + Weight(p) - Weight(w.PhaseOf(t))
    requires p.InQueue() && !w.PhaseOf(t).InQueue() ==> w.arena[id].pending < w.maxDepth
    ensures CountsRight(w')
  {
    forall i | 0 <= i < |w'.arena|
      ensures CountRightAt(w', i)
    {
      assert CountRightAt(w, i);
      CountsMove(w.tasks, w'.tasks, t, w.PhaseOf(t), p, i);
      QueueIsCounted(w.tasks, i);
    }
  }

  predicate IsTaskStep(a: Action) {
    !a.Lookup? && !a.EvictBegin? && !a.EvictCheck? && !a.EvictEnd?
  }

  // What every step of a task inside its slot has in common.
  ghost predicate MovesTask(w: World, w': World, t: Task) {
    var p, p' := w.PhaseOf(t), w'.PhaseOf(t);
    && !p.Idle? && p.slot < |w.arena| && |w'.arena| == |w.arena|
    && var id := p.slot;
       && w'.tasks == w.tasks[t := p'] && (p'.Idle? || p'.slot == id)
       && w'.slots == w.slots && w'.evicting == w.evicting && w'.maxDepth == w.maxDepth
       && (forall i | 0 <= i < |w.arena| && i != id :: w'.arena[i] == w.arena[i])
       && w'.arena[id].session == w.arena[id].session
       && w'.arena[id].pending == w.arena[id].pending + Weight(p') - Weight(p)
       && (p'.InQueue() && !p.InQueue() ==> w.arena[id].pending < w.maxDepth)
       && (p'.Active() ==> p.Active())
       && (if p'.HasPermit() && !p.HasPermit() then w.arena[id].free && !w'.arena[id].free
           else if p.HasPermit() && !p'.HasPermit() then w'.arena[id].free
           else w'.arena[id].free == w.arena[id].free)
  }

  lemma TaskStepMovesTask(w: World, a: Action)
    requires Enabled(w, a) && IsTaskStep(a)
    ensures MovesTask(w, Next(w, a), a.task)
  {
  }

  lemma MoveKeepsExclusive(w: World, w': World, t: Task)
    requires Inv(w) && MovesTask(w, w', t)
    ensures Exclusive(w')
  {
  }

  lemma MoveKeepsInv(w: World, w': World, t: Task)
    requires Inv(w) && MovesTask(w, w', t)
    ensures Inv(w')
  {
    MoveKeepsCounts(w, w', t, w'.PhaseOf(t), w.PhaseOf(t).slot);
    MoveKeepsExclusive(w, w', t);
  }

  // A lookup makes a task refer to the slot of the session, old or new.
  ghost predicate LooksUp(w: World, w': World, t: Task) {
    && w.PhaseOf(t).Idle?
    && |w.arena| <= |w'.arena| <= |w.arena| + 1 && w'.arena[..|w.arena|] == w.arena
    && (|w'.arena| > |w.arena| ==> w'.arena[|w.arena|].pending == 0)
    && w'.maxDepth == w.maxDepth
    && w'.PhaseOf(t).Looked? && w'.tasks == w.tasks[t := w'.PhaseOf(t)]
  }

  lemma LookupKeepsCounts(w: World, w': World, t: Task)
    requires Inv(w) && LooksUp(w, w', t)
    ensures CountsRight(w')
  {
    forall i | 0 <= i < |w'.arena|
      ensures CountRightAt(w', i)
    {
      CountsMove(w.tasks, w'.tasks, t, Idle, w'.PhaseOf(t), i);
      if i < |w.arena| {
        assert CountRightAt(w, i);
        assert w'.arena[i] == w'.arena[..|w.arena|][i];
      } else {
        assert CountedAt(w, i) == {} && InQueueAt(w, i) == {} && AbandonedAt(w, i) == {};
      }
    }
  }

  lemma LookupKeepsInv(w: World, a: Action)
    requires Inv(w) && Enabled(w, a) && a.Lookup?
    ensures Inv(Next(w, a))
  {
    var w' := Next(w, a);
    assert w'.arena[..|w.arena|] == w.arena;
    LookupKeepsCounts(w, w', a.task);
    LookupKeepsExclusive(w, w', a.task);
    LookupKeepsShape(w, a);
  }

  lemma LookupKeepsExclusive(w: World, w': World, t: Task)
    requires Inv(w) && LooksUp(w, w', t)
    ensures Exclusive(w')
  {
    assert forall i | 0 <= i < |w.arena| :: w'.arena[i] == w'.arena[..|w.arena|][i];
  }

  lemma LookupKeepsShape(w: World, a: Action)
    requires Inv(w) && Enabled(w, a) && a.Lookup?
    ensures WellFormed(Next(w, a))
  {
    var w' := Next(w, a);
    assert forall i | 0 <= i < |w.arena| :: w'.arena[i] == w.arena[i];
  }

  lemma EvictionKeepsInv(w: World, a: Action)
    requires Inv(w) && Enabled(w, a) && (a.EvictBegin? || a.EvictCheck? || a.EvictEnd?)
    ensures Inv(Next(w, a))
  {
    var w' := Next(w, a);
    forall i | 0 <= i < |w'.arena|
      ensures CountRightAt(w', i)
    {
      assert CountRightAt(w, i);
    }
  }

  lemma NextKeepsInv(w: World, a: Action)
    requires Inv(w) && Enabled(w, a)
    ensures Inv(Next(w, a))
  {
    match a
    case Lookup(_, _, _) => LookupKeepsInv(w, a);
    case EvictBegin(_) => EvictionKeepsInv(w, a);
    case EvictCheck(_) => EvictionKeepsInv(w, a);
    case EvictEnd => EvictionKeepsInv(w, a);
    case _ =>
      TaskStepMovesTask(w, a);
      MoveKeepsInv(w, Next(w, a), a.task);
  }

  // -------------------------------------------------------------------- runs

  predicate IsRun(w: World, actions: seq<Action>)
    decreases |actions|
  {
    actions == [] || (Enabled(w, actions[0]) && IsRun(Next(w, actions[0]), actions[1..]))
  }

  function RunEnd(w: World, actions: seq<Action>): World
    requires IsRun(w, actions)
    decreases |actions|
  {
    if actions == [] then w else RunEnd(Next(w, actions[0]), actions[1..])
  }

  lemma {:induction false} RunKeepsInv(w: World, actions: seq<Action>)
    requires Inv(w) && IsRun(w, actions)
    ensures Inv(RunEnd(w, actions))
    decreases |actions|
  {
    if actions != [] {
      NextKeepsInv(w, actions[0]);
      RunKeepsInv(Next(w, actions[0]), actions[1..]);
    }
  }

  // Main result 1: in every interleaving `pending` is exact, the queue depth is
  // respected, and a slot has at most one live guard.
  lemma EveryInterleaving(maxDepth: nat, ttl: int, actions: seq<Action>, id: SlotId)
    requires IsRun(Start(maxDepth, ttl), actions)
    requires id < |RunEnd(Start(maxDepth, ttl), actions).arena|
    ensures var w := RunEnd(Start(maxDepth, ttl), actions);
            && w.arena[id].pending == |CountedAt(w, id)| + |AbandonedAt(w, id)|
            && |InQueueAt(w, id)| <= w.maxDepth
            && forall t, t' | w.PhaseOf(t) == Guarding(id) && w.PhaseOf(t') == Guarding(id) :: t == t'
  {
    StartInv(maxDepth, ttl);
    RunKeepsInv(Start(maxDepth, ttl), actions);
    assert CountRightAt(RunEnd(Start(maxDepth, ttl), actions), id);
  }

  // --------------------------------------------------------- ways to leave

  // No task is ever stuck: whoever does not wait can go on, and whoever waits can
  // run into its timeout; a future can be dropped wherever it awaits something.
  lemma NoTaskIsStuck(w: World, t: Task, now: int)
    requires Inv(w) && t in w.tasks
    ensures match w.tasks[t]
            case Idle => true
            case Looked(_) => Enabled(w, CountIn(t))
            case Rejected(_) => Enabled(w, GiveUp(t))
            case Admitted(_) => Enabled(w, Join(t))
            case Waiting(_) => Enabled(w, Expire(t)) && Enabled(w, Abandon(t))
            case Permitted(_) => Enabled(w, Touch(t, now)) && Enabled(w, Abandon(t))
            case Guarding(_) => Enabled(w, Drop(t))
            case TimedOut(_) => Enabled(w, GiveUp(t))
            case Releasing(_) => Enabled(w, Release(t))
            case Abandoned(_) => true
  {
  }

  lemma TwoSteps(w: World, a: Action, b: Action)
    requires Enabled(w, a) && Enabled(Next(w, a), b)
    ensures IsRun(w, [a, b]) && RunEnd(w, [a, b]) == Next(Next(w, a), b)
  {
    assert [a, b][1..] == [b] && [b][1..] == [];
    assert IsRun(Next(w, a), [b]) && RunEnd(Next(w, a), [b]) == Next(Next(w, a), b);
  }

  // The slot `id` becomes `s` and the task idle, and nothing else changes.
  predicate Leaves(w: World, w': World, t: Task, id: SlotId, s: Slot)
    requires id < |w.arena|
  {
    w' == World(w.maxDepth, w.ttl, w.slots, w.arena[id := s], w.tasks[t := Idle], w.evicting)
  }

  // A waiter that times out leaves the queue and is counted out; the permit stays
  // where it is.
  lemma TimedOutWaiterLeaves(w: World, t: Task, id: SlotId)
    requires w.PhaseOf(t) == Waiting(id) && id < |w.arena|
    ensures IsRun(w, [Expire(t), GiveUp(t)])
    ensures var s := w.arena[id];
            Leaves(w, RunEnd(w, [Expire(t), GiveUp(t)]), t, id,
                   Slot(s.session, s.free, WithoutTask(s.waiters, t), s.pending - 1, s.lastActive))
  {
    var s := w.arena[id];
    var s1 := s.(waiters := WithoutTask(s.waiters, t));
    LastUpdateShows(w, id, s1, s1.(pending := s.pending - 1), t, TimedOut(id), Idle);
    TwoSteps(w, Expire(t), GiveUp(t));
  }

  // A guard that is dropped is counted out and gives the permit back.
  lemma GuardLeaves(w: World, t: Task, id: SlotId)
    requires w.PhaseOf(t) == Guarding(id) && id < |w.arena|
    ensures IsRun(w, [Drop(t), Release(t)])
    ensures var s := w.arena[id];
            Leaves(w, RunEnd(w, [Drop(t), Release(t)]), t, id, Slot(s.session, true, s.waiters, s.pending - 1, s.lastActive))
  {
    var s := w.arena[id];
    var s1 := s.(pending := s.pending - 1);
    LastUpdateShows(w, id, s1, s1.(free := true), t, Releasing(id), Idle);
    TwoSteps(w, Drop(t), Release(t));
  }

  // A dropped future leaves the queue, or gives its permit back, and stays counted.
  lemma DroppedFutureStaysCounted(w: World, t: Task, id: SlotId)
    requires (w.PhaseOf(t) == Waiting(id) || w.PhaseOf(t) == Permitted(id)) && id < |w.arena|
    ensures Enabled(w, Abandon(t))
    ensures var (s, s') := (w.arena[id], Next(w, Abandon(t)).arena[id]);
            && s'.pending == s.pending && s'.lastActive == s.lastActive
            && (w.PhaseOf(t).Waiting? ==> s'.free == s.free && s'.waiters == WithoutTask(s.waiters, t))
            && (w.PhaseOf(t).Permitted? ==> s'.free && s'.waiters == s.waiters)
  {
  }

  // ------------------------------------------------------- dropped futures

  // A slot with `maxDepth` dropped futures, current for its session.
  ghost predicate Exhausted(w: World, session: string, id: SlotId) {
    && session in w.slots && w.slots[session] == id && id < |w.arena|
    && |AbandonedAt(w, id)| >= w.maxDepth >= 1
    && (w.evicting.Some? ==> session !in w.evicting.value.marked)
  }

  lemma StepKeepsExhausted(w: World, a: Action, session: string, id: SlotId)
    requires Inv(w) && Enabled(w, a) && Exhausted(w, session, id)
    ensures Exhausted(Next(w, a), session, id)
    ensures a.CountIn? && w.PhaseOf(a.task) == Looked(id) ==> Next(w, a).PhaseOf(a.task) == Rejected(id)
  {
    assert CountRightAt(w, id);
    AbandonedStay(w, a, id);
    StaysMapped(w, a, session, id);
  }

  lemma AbandonedStay(w: World, a: Action, id: SlotId)
    requires Enabled(w, a)
    ensures |AbandonedAt(w, id)| <= |AbandonedAt(Next(w, a), id)|
  {
    var w' := Next(w, a);
    assert forall t | t in AbandonedAt(w, id) :: w.PhaseOf(t).Abandoned? && w'.PhaseOf(t) == w.PhaseOf(t);
    SubsetSize(AbandonedAt(w, id), AbandonedAt(w', id));
  }

  // A slot with something pending is neither marked nor replaced.
  lemma StaysMapped(w: World, a: Action, session: string, id: SlotId)
    requires Inv(w) && Enabled(w, a)
    requires session in w.slots && w.slots[session] == id && id < |w.arena| && w.arena[id].pending > 0
    requires w.evicting.Some? ==> session !in w.evicting.value.marked
    ensures var w' := Next(w, a);
            && session in w'.slots && w'.slots[session] == id && id < |w'.arena|
            && (w'.evicting.Some? ==> session !in w'.evicting.value.marked)
  {
  }

  // Every caller that counted itself at the slot in this run was refused.
  ghost predicate AllRefused(w: World, actions: seq<Action>, id: SlotId)
    requires IsRun(w, actions)
    decreases |actions|
  {
    actions == [] ||
    (&& (actions[0].CountIn? && w.PhaseOf(actions[0].task) == Looked(id) ==>
           Next(w, actions[0]).PhaseOf(actions[0].task) == Rejected(id))
     && AllRefused(Next(w, actions[0]), actions[1..], id))
  }

  // Main result 3: once `maxDepth` futures of a session were dropped while they
  // waited, every later caller is refused, in every continuation, and the slot
  // is never evicted.
  lemma {:induction false} DroppedFuturesBlockForGood(w: World, actions: seq<Action>, session: string, id: SlotId)
    requires Inv(w) && IsRun(w, actions) && Exhausted(w, session, id)
    ensures Exhausted(RunEnd(w, actions), session, id) && AllRefused(w, actions, id)
    decreases |actions|
  {
    if actions != [] {
      NextKeepsInv(w, actions[0]);
      StepKeepsExhausted(w, actions[0], session, id);
      DroppedFuturesBlockForGood(Next(w, actions[0]), actions[1..], session, id);
    }
  }

  // ------------------------------------------------------------- recent use

  // The session has its slot, that slot was active at `t` or later, and the
  // eviction that is running, if any, began no more than a lifetime after `t`.
  predicate InUse(w: World, session: string, id: SlotId, t: int) {
    && session in w.slots && w.slots[session] == id && id < |w.arena| && w.arena[id].lastActive >= t
    && (w.evicting.Some? ==> w.evicting.value.now <= t + w.ttl && session !in w.evicting.value.marked)
  }

  // Evictions begin at most a lifetime after `t`, and guards of the slot are
  // built no earlier than `t`.
  predicate WithinLifetime(w: World, actions: seq<Action>, id: SlotId, t: int)
    requires IsRun(w, actions)
    decreases |actions|
  {
    actions == [] ||
    (&& (actions[0].EvictBegin? ==> actions[0].now <= t + w.ttl)
     && (actions[0].Touch? && w.PhaseOf(actions[0].task) == Permitted(id) ==> actions[0].now >= t)
     && WithinLifetime(Next(w, actions[0]), actions[1..], id, t))
  }

  lemma StepKeepsInUse(w: World, a: Action, session: string, id: SlotId, t: int)
    requires Inv(w) && Enabled(w, a) && InUse(w, session, id, t)
    requires a.EvictBegin? ==> a.now <= t + w.ttl
    requires a.Touch? && w.PhaseOf(a.task) == Permitted(id) ==> a.now >= t
    ensures InUse(Next(w, a), session, id, t) && Next(w, a).ttl == w.ttl
  {
  }

  lemma {:induction false} RunKeepsInUse(w: World, actions: seq<Action>, session: string, id: SlotId, t: int)
    requires Inv(w) && IsRun(w, actions) && InUse(w, session, id, t) && WithinLifetime(w, actions, id, t)
    ensures InUse(RunEnd(w, actions), session, id, t)
    decreases |actions|
  {
    if actions != [] {
      NextKeepsInv(w, actions[0]);
      StepKeepsInUse(w, actions[0], session, id, t);
      RunKeepsInUse(Next(w, actions[0]), actions[1..], session, id, t);
    }
  }

  // A session whose guard was built at `t` keeps its slot through every eviction
  // that begins by the end of its lifetime, whatever else happens.
  lemma RecentUseIsKept(w: World, task: Task, t: int, after: seq<Action>, session: string, id: SlotId)
    requires Inv(w) && Enabled(w, Touch(task, t)) && w.PhaseOf(task) == Permitted(id)
    requires session in w.slots && w.slots[session] == id
    requires w.evicting.Some? ==> w.evicting.value.now <= t + w.ttl && session !in w.evicting.value.marked
    requires IsRun(Next(w, Touch(task, t)), after) && WithinLifetime(Next(w, Touch(task, t)), after, id, t)
    ensures var end := RunEnd(Next(w, Touch(task, t)), after); session in end.slots && end.slots[session] == id
  {
    NextKeepsInv(w, Touch(task, t));
    RunKeepsInUse(Next(w, Touch(task, t)), after, session, id, t);
  }

  // A slot counts as used from the lookup that creates it.
  lemma NewSlotIsInUse(w: World, task: Task, session: string, now: int)
    requires Enabled(w, Lookup(task, session, now)) && session !in w.slots
    ensures InUse(Next(w, Lookup(task, session, now)), session, |w.arena|, now)
  {
  }

  // An eviction removes a session with nothing pending that was last active
  // longer ago than its lifetime, and that is all one check of it takes.
  lemma LongIdleIsEvicted(w: World, session: string, now: int)
    requires Inv(w) && w.evicting.None? && session in w.slots
    requires now - w.arena[w.slots[session]].lastActive > w.ttl && w.arena[w.slots[session]].pending == 0
    ensures var run := [EvictBegin(now), EvictCheck(session), EvictEnd];
            IsRun(w, run) && RunEnd(w, run).slots == w.slots - {session}
  {
    var w1 := w.(evicting := Some(Eviction(now, {})));
    var w2 := w.(evicting := Some(Eviction(now, {session})));
    assert Next(w, EvictBegin(now)) == w1;
    assert {} + {session} == {session};
    assert Enabled(w1, EvictCheck(session)) && Next(w1, EvictCheck(session)) == w2;
    assert Enabled(w2, EvictEnd) && Next(w2, EvictEnd).slots == w.slots - {session};
    ThreeSteps(w, EvictBegin(now), EvictCheck(session), EvictEnd);
  }

  lemma ThreeSteps(w: World, a: Action, b: Action, d: Action)
    requires Enabled(w, a) && Enabled(Next(w, a), b) && Enabled(Next(Next(w, a), b), d)
    ensures IsRun(w, [a, b, d]) && RunEnd(w, [a, b, d]) == Next(Next(Next(w, a), b), d)
  {
    TwoSteps(Next(w, a), b, d);
    assert [a, b, d][1..] == [b, d];
  }

  // ------------------------------------------------------ one guard per session

  // The eviction finds the slot idle and will remove it.
  predicate Marks(w: World, a: Action) {
    a.EvictCheck? && Enabled(w, a) && IdleFor(w, w.arena[w.slots[a.session]], w.evicting.value.now)
  }

  // No slot is marked for removal while a task is between its lookup of that
  // slot and its increment.
  predicate HarmlessCheck(w: World, a: Action) {
    Marks(w, a) ==> forall t | t in w.tasks :: w.tasks[t] != Looked(w.slots[a.session])
  }

  predicate HarmlessRun(w: World, actions: seq<Action>)
    requires IsRun(w, actions)
    decreases |actions|
  {
    actions == [] || (HarmlessCheck(w, actions[0]) && HarmlessRun(Next(w, actions[0]), actions[1..]))
  }

  // Active tasks use the slot their session is mapped to, and none of them uses
  // a slot that is marked for removal.
  ghost predicate Current(w: World) {
    forall t | t in w.tasks && w.tasks[t].Active() ::
      var id := w.tasks[t].slot;
      && id < |w.arena|
      && var session := w.arena[id].session;
         && session in w.slots && w.slots[session] == id
         && (w.evicting.Some? ==> session !in w.evicting.value.marked)
  }

  lemma IdleSlotHasNoActiveTask(w: World, session: string)
    requires Inv(w) && session in w.slots && w.arena[w.slots[session]].pending == 0
    requires forall t | t in w.tasks :: w.tasks[t] != Looked(w.slots[session])
    ensures forall t | t in w.tasks && w.tasks[t].Active() :: w.tasks[t].slot != w.slots[session]
  {
    var id := w.slots[session];
    assert CountRightAt(w, id);
    assert |CountedAt(w, id)| == 0 && |AbandonedAt(w, id)| == 0;
    forall t | t in w.tasks && w.tasks[t].Active()
      ensures w.tasks[t].slot != id
    {
      assert t !in CountedAt(w, id) && t !in AbandonedAt(w, id);
    }
  }

  lemma MoveKeepsCurrent(w: World, w': World, t: Task)
    requires Current(w) && MovesTask(w, w', t)
    ensures Current(w')
  {
  }

  lemma LookupKeepsCurrent(w: World, a: Action)
    requires Inv(w) && Current(w) && Enabled(w, a) && a.Lookup?
    ensures Current(Next(w, a))
  {
  }

  lemma EvictionKeepsCurrent(w: World, a: Action)
    requires Inv(w) && Current(w) && Enabled(w, a) && HarmlessCheck(w, a)
    requires a.EvictBegin? || a.EvictCheck? || a.EvictEnd?
    ensures Current(Next(w, a))
  {
    if Marks(w, a) {
      IdleSlotHasNoActiveTask(w, a.session);
    }
  }

  lemma NextKeepsCurrent(w: World, a: Action)
    requires Inv(w) && Current(w) && Enabled(w, a) && HarmlessCheck(w, a)
    ensures Current(Next(w, a))
  {
    match a
    case Lookup(_, _, _) => LookupKeepsCurrent(w, a);
    case EvictBegin(_) => EvictionKeepsCurrent(w, a);
    case EvictCheck(_) => EvictionKeepsCurrent(w, a);
    case EvictEnd => EvictionKeepsCurrent(w, a);
    case _ =>
      TaskStepMovesTask(w, a);
      MoveKeepsCurrent(w, Next(w, a), a.task);
  }

  lemma {:induction false} HarmlessRunKeepsCurrent(w: World, actions: seq<Action>)
    requires Inv(w) && Current(w) && IsRun(w, actions) && HarmlessRun(w, actions)
    ensures Inv(RunEnd(w, actions)) && Current(RunEnd(w, actions))
    decreases |actions|
  {
    if actions != [] {
      NextKeepsInv(w, actions[0]);
      NextKeepsCurrent(w, actions[0]);
      HarmlessRunKeepsCurrent(Next(w, actions[0]), actions[1..]);
    }
  }

  predicate Guards(w: World, t: Task, session: string) {
    var p := w.PhaseOf(t);
    p.Guarding? && p.slot < |w.arena| && w.arena[p.slot].session == session
  }

  // Main result 2: in runs whose evictions mark no slot that a task has looked up
  // and not yet counted itself at, a session has at most one live guard.
  lemma OneGuardPerSession(maxDepth: nat, ttl: int, actions: seq<Action>, session: string, t: Task, t': Task)
    requires IsRun(Start(maxDepth, ttl), actions) && HarmlessRun(Start(maxDepth, ttl), actions)
    requires var w := RunEnd(Start(maxDepth, ttl), actions); Guards(w, t, session) && Guards(w, t', session)
    ensures t == t'
  {
    StartInv(maxDepth, ttl);
    HarmlessRunKeepsCurrent(Start(maxDepth, ttl), actions);
    var w := RunEnd(Start(maxDepth, ttl), actions);
    assert w.tasks[t].Active() && w.tasks[t'].Active();
  }

  // ------------------------------------------------------------- the bad run

  lemma {:induction false} RunConcat(w: World, a: seq<Action>, b: seq<Action>)
    requires IsRun(w, a) && IsRun(RunEnd(w, a), b)
    ensures IsRun(w, a + b) && RunEnd(w, a + b) == RunEnd(RunEnd(w, a), b)
    decreases |a|
  {
    if a == [] {
      assert a + b == b;
    } else {
      assert (a + b)[1..] == a[1..] + b;
      RunConcat(Next(w, a[0]), a[1..], b);
    }
  }

  function Acquisition(t: Task, now: int): seq<Action> {
    [CountIn(t), Join(t), Grant(t), Touch(t, now)]
  }

  // The slot after a task got through it alone.
  function Taken(s: Slot, now: int): Slot {
    s.(free := false, pending := s.pending + 1, lastActive := now)
  }

  // Only the last update of a slot and of a task shows.
  lemma LastUpdateShows(w: World, id: SlotId, s: Slot, s': Slot, t: Task, p: Phase, p': Phase)
    requires id < |w.arena|
    ensures var w' := w.WithSlot(id, s).At(t, p);
            id < |w'.arena| && w'.arena[id] == s && w'.PhaseOf(t) == p && w'.maxDepth == w.maxDepth &&
            w'.WithSlot(id, s').At(t, p') == w.WithSlot(id, s').At(t, p')
  {
    assert w.arena[id := s][id := s'] == w.arena[id := s'];
    assert w.tasks[t := p][t := p'] == w.tasks[t := p'];
  }

  lemma JoinIs(w: World, t: Task, id: SlotId)
    requires w.PhaseOf(t) == Admitted(id) && id < |w.arena| && w.arena[id].waiters == []
    ensures Enabled(w, Join(t)) && Next(w, Join(t)) == w.WithSlot(id, w.arena[id].(waiters := [t])).At(t, Waiting(id))
  {
    assert w.arena[id].waiters + [t] == [t];
  }

  lemma GrantIs(w: World, t: Task, id: SlotId)
    requires w.PhaseOf(t) == Waiting(id) && id < |w.arena| && w.arena[id].waiters == [t] && w.arena[id].free
    ensures Enabled(w, Grant(t))
    ensures Next(w, Grant(t)) == w.WithSlot(id, w.arena[id].(free := false, waiters := [])).At(t, Permitted(id))
  {
    assert [t][1..] == [];
  }

  // A task that looked up a free, unqueued slot gets a guard on it.
  lemma AcquiresAlone(w: World, t: Task, id: SlotId, now: int)
    requires w.PhaseOf(t) == Looked(id) && id < |w.arena|
    requires w.arena[id].free && w.arena[id].waiters == [] && w.arena[id].pending < w.maxDepth
    ensures IsRun(w, Acquisition(t, now))
    ensures RunEnd(w, Acquisition(t, now)) == w.WithSlot(id, Taken(w.arena[id], now)).At(t, Guarding(id))
  {
    var s := w.arena[id];
    var s1 := s.(pending := s.pending + 1);
    var s2 := s1.(waiters := [t]);
    var s3 := s1.(free := false);
    var w1 := w.WithSlot(id, s1).At(t, Admitted(id));
    var w2 := w.WithSlot(id, s2).At(t, Waiting(id));
    var w3 := w.WithSlot(id, s3).At(t, Permitted(id));
    var w4 := w.WithSlot(id, Taken(s, now)).At(t, Guarding(id));
    assert Enabled(w1, Join(t)) && Next(w1, Join(t)) == w2 by {
      LastUpdateShows(w, id, s1, s2, t, Admitted(id), Waiting(id));
      JoinIs(w1, t, id);
    }
    assert Enabled(w2, Grant(t)) && Next(w2, Grant(t)) == w3 by {
      LastUpdateShows(w, id, s2, s3, t, Waiting(id), Permitted(id));
      GrantIs(w2, t, id);
    }
    assert Enabled(w3, Touch(t, now)) && Next(w3, Touch(t, now)) == w4 by {
      LastUpdateShows(w, id, s3, Taken(s, now), t, Permitted(id), Guarding(id));
    }
    FourSteps(w, w1, w2, w3, w4, Acquisition(t, now));
  }

  lemma FourSteps(w: World, w1: World, w2: World, w3: World, w4: World, acts: seq<Action>)
    requires |acts| == 4
    requires Enabled(w, acts[0]) && w1 == Next(w, acts[0]) && Enabled(w1, acts[1]) && w2 == Next(w1, acts[1])
    requires Enabled(w2, acts[2]) && w3 == Next(w2, acts[2]) && Enabled(w3, acts[3]) && w4 == Next(w3, acts[3])
    ensures IsRun(w, acts) && RunEnd(w, acts) == w4
  {
    var tail := acts[1..];
    assert tail[1..] == acts[2..] && tail[1..][1..] == acts[3..] && tail[1..][1..][1..] == [];
    assert IsRun(w3, tail[1..][1..]) && RunEnd(w3, tail[1..][1..]) == w4;
    assert IsRun(w2, tail[1..]) && RunEnd(w2, tail[1..]) == w4;
  }

  // A task still refers to a slot that an eviction removed from the map.
  predicate Stale(w: World, t: Task, id: SlotId) {
    && w.PhaseOf(t) == Looked(id) && id < |w.arena| && w.arena[id].session !in w.slots
    && w.arena[id].free && w.arena[id].waiters == [] && w.arena[id].pending < w.maxDepth
  }

  // From any state with a stale task, two tasks can hold guards of one session.
  lemma StaleTaskOverlaps(w: World, t: Task, id: SlotId, t': Task, now: int)
    requires Stale(w, t, id) && w.PhaseOf(t').Idle? && w.evicting.None? && w.maxDepth >= 1
    ensures var session := w.arena[id].session;
            var actions := Acquisition(t, now) + ([Lookup(t', session, now)] + Acquisition(t', now));
            && IsRun(w, actions)
            && Guards(RunEnd(w, actions), t, session) && Guards(RunEnd(w, actions), t', session)
  {
    var session := w.arena[id].session;
    AcquiresAlone(w, t, id, now);
    var w1 := RunEnd(w, Acquisition(t, now));
    var look := Lookup(t', session, now);
    var w2 := Next(w1, look);
    assert w2.arena[|w.arena|] == Slot(session, true, [], 0, now);
    AcquiresAlone(w2, t', |w.arena|, now);
    var rest := [look] + Acquisition(t', now);
    assert rest[1..] == Acquisition(t', now);
    RunConcat(w, Acquisition(t, now), rest);
  }

  function EvictAfterLookup(session: string, t: Task, ttl: int): seq<Action> {
    [Lookup(t, session, 0), EvictBegin(ttl + 1), EvictCheck(session), EvictEnd]
  }

  lemma EvictionMakesStale(maxDepth: nat, ttl: int, session: string, t: Task)
    requires maxDepth >= 1
    ensures var w := Start(maxDepth, ttl);
            && IsRun(w, EvictAfterLookup(session, t, ttl))
            && Stale(RunEnd(w, EvictAfterLookup(session, t, ttl)), t, 0)
            && RunEnd(w, EvictAfterLookup(session, t, ttl)).evicting.None?
            && RunEnd(w, EvictAfterLookup(session, t, ttl)).maxDepth == maxDepth
            && RunEnd(w, EvictAfterLookup(session, t, ttl)).arena[0].session == session
            && RunEnd(w, EvictAfterLookup(session, t, ttl)).tasks == map[t := Looked(0)]
  {
    var w := Start(maxDepth, ttl);
    var slot := Slot(session, true, [], 0, 0);
    var w1 := World(maxDepth, ttl, map[session := 0], [slot], map[t := Looked(0)], None);
    var w2 := w1.(evicting := Some(Eviction(ttl + 1, {})));
    var w3 := w1.(evicting := Some(Eviction(ttl + 1, {session})));
    var w4 := w1.(slots := map[]);
    assert Next(w, Lookup(t, session, 0)) == w1;
    assert Next(w1, EvictBegin(ttl + 1)) == w2;
    assert {} + {session} == {session};
    assert Next(w2, EvictCheck(session)) == w3;
    assert w3.slots - {session} == map[];
    assert Next(w3, EvictEnd) == w4;
    FourSteps(w, w1, w2, w3, w4, EvictAfterLookup(session, t, ttl));
  }

  // Without the hypothesis the property fails, for every depth, lifetime and
  // session: an eviction between lookup and increment gives two live guards.
  lemma EvictionRaceBreaksExclusion(maxDepth: nat, ttl: int, session: string)
    requires maxDepth >= 1
    ensures exists actions ::
              && IsRun(Start(maxDepth, ttl), actions)
              && Guards(RunEnd(Start(maxDepth, ttl), actions), 0, session)
              && Guards(RunEnd(Start(maxDepth, ttl), actions), 1, session)
  {
    var w := Start(maxDepth, ttl);
    EvictionMakesStale(maxDepth, ttl, session, 0);
    var stale := RunEnd(w, EvictAfterLookup(session, 0, ttl));
    StaleTaskOverlaps(stale, 0, 0, 1, 0);
    var race := Acquisition(0, 0) + ([Lookup(1, session, 0)] + Acquisition(1, 0));
    RunConcat(w, EvictAfterLookup(session, 0, ttl), race);
    assert IsRun(w, EvictAfterLookup(session, 0, ttl) + race);
  }

  // ------------------------------------------------------- the queue in place

  lemma RemovedOneByOne<V>(m: map<string, V>, gone: set<string>, key: string)
    ensures (m - gone) - {key} == m - (gone + {key})
  {
  }

  // Each method is one atomic section of `acquire`, of the guard's drop, or of
  // `evict_idle`.
  class SessionActorQueue {
    const maxDepth: nat
    const ttl: int
    var slots: map<string, SlotId>
    var arena: seq<Slot>
    var tasks: map<Task, Phase>
    var evicting: Option<Eviction>

    ghost function Abs(): World
      reads this
    {
      World(maxDepth, ttl, slots, arena, tasks, evicting)
    }

    function PhaseOf(t: Task): Phase
      reads this
    {
      if t in tasks then tasks[t] else Idle
    }

    constructor (maxDepth: nat, ttl: int)
      ensures Abs() == Start(maxDepth, ttl)
    {
      this.maxDepth, this.ttl := maxDepth, ttl;
      slots, arena, tasks, evicting := map[], [], map[], None;
    }

    method LookupSlot(t: Task, session: string, now: int) returns (id: SlotId)
      requires Enabled(Abs(), Lookup(t, session, now))
      modifies this
      ensures Abs() == Next(old(Abs()), Lookup(t, session, now))
      ensures PhaseOf(t) == Looked(id)
    {
      if session !in slots {
        slots := slots[session := |arena|];
        arena := arena + [Slot(session, true, [], 0, now)];
      }
      id := slots[session];
      tasks := tasks[t := Looked(id)];
    }

    // `fetch_add` and the depth check; a full queue reports the count it saw.
    method Count(t: Task) returns (full: Option<int>)
      requires Enabled(Abs(), CountIn(t))
      modifies this
      ensures Abs() == Next(old(Abs()), CountIn(t))
      ensures full.Some? <==> PhaseOf(t).Rejected?
      ensures full.Some? ==> full.value == old(arena)[old(PhaseOf(t)).slot].pending >= maxDepth
    {
      var id := PhaseOf(t).slot;
      var current := arena[id].pending;
      arena := arena[id := arena[id].(pending := current + 1)];
      if current >= maxDepth {
        tasks := tasks[t := Rejected(id)];
        return Some(current);
      }
      tasks := tasks[t := Admitted(id)];
      return None;
    }

    method JoinQueue(t: Task)
      requires Enabled(Abs(), Join(t))
      modifies this
      ensures Abs() == Next(old(Abs()), Join(t))
    {
      var id := PhaseOf(t).slot;
      arena := arena[id := arena[id].(waiters := arena[id].waiters + [t])];
      tasks := tasks[t := Waiting(id)];
    }

    method TakePermit(t: Task)
      requires Enabled(Abs(), Grant(t))
      modifies this
      ensures Abs() == Next(old(Abs()), Grant(t))
    {
      var id := PhaseOf(t).slot;
      arena := arena[id := arena[id].(free := false, waiters := arena[id].waiters[1..])];
      tasks := tasks[t := Permitted(id)];
    }

    method BuildGuard(t: Task, now: int)
      requires Enabled(Abs(), Touch(t, now))
      modifies this
      ensures Abs() == Next(old(Abs()), Touch(t, now))
    {
      var id := PhaseOf(t).slot;
      arena := arena[id := arena[id].(lastActive := now)];
      tasks := tasks[t := Guarding(id)];
    }

    method TimeOut(t: Task)
      requires Enabled(Abs(), Expire(t))
      modifies this
      ensures Abs() == Next(old(Abs()), Expire(t))
    {
      var id := PhaseOf(t).slot;
      arena := arena[id := arena[id].(waiters := WithoutTask(arena[id].waiters, t))];
      tasks := tasks[t := TimedOut(id)];
    }

    // The `fetch_sub` before an error is returned.
    method CountOut(t: Task)
      requires Enabled(Abs(), GiveUp(t))
      modifies this
      ensures Abs() == Next(old(Abs()), GiveUp(t))
    {
      var id := PhaseOf(t).slot;
      arena := arena[id := arena[id].(pending := arena[id].pending - 1)];
      tasks := tasks[t := Idle];
    }

    // `SessionGuard::drop` runs before the permit field is dropped.
    method DropGuard(t: Task)
      requires Enabled(Abs(), Drop(t))
      modifies this
      ensures Abs() == Next(old(Abs()), Drop(t))
    {
      var id := PhaseOf(t).slot;
      arena := arena[id := arena[id].(pending := arena[id].pending - 1)];
      tasks := tasks[t := Releasing(id)];
    }

    method ReturnPermit(t: Task)
      requires Enabled(Abs(), Release(t))
      modifies this
      ensures Abs() == Next(old(Abs()), Release(t))
    {
      var id := PhaseOf(t).slot;
      arena := arena[id := arena[id].(free := true)];
      tasks := tasks[t := Idle];
    }

    // The dropped future leaves the queue, or gives the permit back; nobody decrements.
    method DropFuture(t: Task)
      requires Enabled(Abs(), Abandon(t))
      modifies this
      ensures Abs() == Next(old(Abs()), Abandon(t))
    {
      var id := PhaseOf(t).slot;
      var s := arena[id];
      arena := arena[id := if PhaseOf(t).Permitted? then s.(free := true) else s.(waiters := WithoutTask(s.waiters, t))];
      tasks := tasks[t := Abandoned(id)];
    }

    // The number of tasks of the session that incremented and never decremented.
    method QueueDepth(session: string) returns (depth: int)
      requires Inv(Abs())
      ensures session in slots ==> depth == |CountedAt(Abs(), slots[session])| + |AbandonedAt(Abs(), slots[session])|
      ensures session !in slots ==> depth == 0
    {
      assert session in slots ==> CountRightAt(Abs(), slots[session]);
      depth := if session in slots then arena[slots[session]].pending else 0;
    }

    // `evict_idle` when no task runs in between: exactly the idle sessions go.
    method EvictIdle(now: int) returns (evicted: nat)
      requires WellFormed(Abs()) && evicting.None?
      modifies this`slots
      ensures forall k :: k in slots <==>
                k in old(slots) && (now - old(arena)[old(slots)[k]].lastActive <= ttl || old(arena)[old(slots)[k]].pending != 0)
      ensures forall k | k in slots :: slots[k] == old(slots)[k]
      ensures evicted == |old(slots)| - |slots|
    {
      var toRemove := CollectIdle(now);
      var before := |slots|;
      RemoveAll(toRemove);
      evicted := before - |slots|;
    }

    method CollectIdle(now: int) returns (toRemove: set<string>)
      requires WellFormed(Abs())
      ensures toRemove == IdleSessions(Abs(), now)
    {
      var rest := slots.Keys;
      toRemove := {};
      while rest != {}
        invariant rest <= slots.Keys
        invariant toRemove == IdleSessions(Abs(), now) - rest
        decreases rest
      {
        var key :| key in rest;
        var slot := arena[slots[key]];
        if now - slot.lastActive > ttl && slot.pending == 0 {
          toRemove := toRemove + {key};
        }
        rest := rest - {key};
      }
    }

    method RemoveAll(keys: set<string>)
      modifies this`slots
      ensures slots == old(slots) - keys && |slots| <= |old(slots)|
    {
      var rest := keys;
      while rest != {}
        invariant rest <= keys && slots == old(slots) - (keys - rest)
        decreases rest
      {
        var key :| key in rest;
        RemovedOneByOne(old(slots), keys - rest, key);
        assert keys - (rest - {key}) == (keys - rest) + {key};
        slots := slots - {key};
        rest := rest - {key};
      }
      assert keys - rest == keys;
      SubsetSize(slots.Keys, old(slots).Keys);
    }
  }
}
