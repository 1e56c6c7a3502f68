// The ask-user broker: a map of pending senders under one lock, one-shot
// channels, and askers that wait for an answer or for their timer.
module AskUser {
  import opened Wrappers

  datatype Status = Accepted | Declined | Cancelled | Expired

  datatype Response = Response(status: Status, answer: Option<string>)

  const CANCELLED := Response(Cancelled, None)
  const EXPIRED := Response(Expired, None)

  datatype Request = Request(id: string, session: string, turn: string, call: string, input: string)

  // The receiving end as its asker sees it.
  datatype Channel = Empty | Value(response: Response) | Closed

  datatype Phase =
    | Waiting
    | Expiring                   // the timer fired, the entry is not removed yet
    | Done(response: Response)   // `ask` returned
    | Gone                       // the future was dropped while it waited

  // One call of `ask`.
  datatype Ask = Ask(request: Request, channel: Channel, phase: Phase)

  // `pending` maps a request id to the call that holds the matching receiver.
  datatype World = World(pending: map<string, nat>, asks: seq<Ask>)

  // The check of a response against the input of its request.
  type Validator = (string, Response) -> bool

  datatype Action =
    | AskFor(request: Request)
    | Submit(session: string, id: string, turn: string, call: string, response: Response)
    | CancelTurn(session: string, turn: string)
    | Receive(ask: nat)
    | TimerFires(ask: nat)
    | RemoveIfPending(ask: nat)
    | Abandon(ask: nat)

  datatype SubmitResult = Ok | NotPending | IdentityMismatch | InvalidResponse

  predicate HasSender(w: World, n: nat) {
    n < |w.asks| && w.asks[n].request.id in w.pending && w.pending[w.asks[n].request.id] == n
  }

  predicate Belongs(r: Request, session: string, turn: string) {
    r.session == session && r.turn == turn
  }

  // A timer only wins while the channel is empty; a dropped asker takes no more
  // steps.
  predicate Enabled(w: World, a: Action) {
    match a
    case AskFor(_) => true
    case Submit(_, id, _, _, _) => id in w.pending ==> w.pending[id] < |w.asks|
    case CancelTurn(_, _) => true
    case Receive(n) => n < |w.asks| && w.asks[n].phase.Waiting? && !w.asks[n].channel.Empty?
    case TimerFires(n) => n < |w.asks| && w.asks[n].phase.Waiting? && w.asks[n].channel.Empty?
    case RemoveIfPending(n) => n < |w.asks| && w.asks[n].phase.Expiring?
    case Abandon(n) => n < |w.asks| && w.asks[n].phase.Waiting?
  }

  // A value sent to a receiver that is gone is lost.
  function Deliver(a: Ask, r: Response): Ask {
    if a.phase.Waiting? then a.(channel := Value(r)) else a
  }

  // Dropping the sender of an empty channel closes it.
  function DropSender(w: World, id: string): seq<Ask> {
    if id in w.pending && w.pending[id] < |w.asks| && w.asks[w.pending[id]].channel.Empty? then
      w.asks[w.pending[id] := w.asks[w.pending[id]].(channel := Closed)]
    else w.asks
  }

  function Outcome(accepts: Validator, w: World, a: Action): SubmitResult
    requires a.Submit? && Enabled(w, a)
  {
    if a.id !in w.pending then NotPending
    else
      var r := w.asks[w.pending[a.id]].request;
      if r.session != a.session || r.turn != a.turn || r.call != a.call then IdentityMismatch
      else if !accepts(r.input, a.response) then InvalidResponse
      else Ok
  }

  function TurnIds(w: World, session: string, turn: string): set<string> {
    set id | id in w.pending && w.pending[id] < |w.asks| && Belongs(w.asks[w.pending[id]].request, session, turn)
  }

  function CancelIds(w: World, ids: set<string>): World {
    World(w.pending - ids,
          seq(|w.asks|, n requires 0 <= n < |w.asks| =>
            if HasSender(w, n) && w.asks[n].request.id in ids then Deliver(w.asks[n], CANCELLED) else w.asks[n]))
  }

  function Next(accepts: Validator, w: World, a: Action): World
    requires Enabled(w, a)
  {
    match a
    case AskFor(r) => World(w.pending[r.id := |w.asks|], DropSender(w, r.id) + [Ask(r, Empty, Waiting)])
    case Submit(_, id, _, _, response) =>
      if Outcome(accepts, w, a).Ok? then
        World(w.pending - {id}, w.asks[w.pending[id] := Deliver(w.asks[w.pending[id]], response)])
      else w
    case CancelTurn(session, turn) => CancelIds(w, TurnIds(w, session, turn))
    case Receive(n) =>
      w.(asks := w.asks[n := w.asks[n].(phase := Done(match w.asks[n].channel case Value(r) => r case _ => CANCELLED))])
    case TimerFires(n) => w.(asks := w.asks[n := w.asks[n].(phase := Expiring)])
    case RemoveIfPending(n) =>
      var id := w.asks[n].request.id;
      var asks := DropSender(w, id);
      World(w.pending - {id}, asks[n := asks[n].(phase := Done(EXPIRED))])
    case Abandon(n) => w.(asks := w.asks[n := w.asks[n].(phase := Gone)])
  }

  // -------------------------------------------------------------- invariants

  ghost predicate Allowed(accepts: Validator, input: string, r: Response) {
    accepts(input, r) || r == CANCELLED || r == EXPIRED
  }

  // An entry belongs to a call that has received nothing yet.
  ghost predicate PendingIsOpen(w: World) {
    forall id | id in w.pending ::
      && w.pending[id] < |w.asks| && w.asks[w.pending[id]].request.id == id
      && w.asks[w.pending[id]].channel.Empty? && !w.asks[w.pending[id]].phase.Done?
  }

  ghost predicate NoLostWakeUp(w: World) {
    forall n | 0 <= n < |w.asks| && w.asks[n].phase.Waiting? && w.asks[n].channel.Empty? :: HasSender(w, n)
  }

  ghost predicate AnswersAllowed(accepts: Validator, w: World) {
    forall n | 0 <= n < |w.asks| ::
      && (w.asks[n].channel.Value? ==> Allowed(accepts, w.asks[n].request.input, w.asks[n].channel.response))
      && (w.asks[n].phase.Done? ==> Allowed(accepts, w.asks[n].request.input, w.asks[n].phase.response))
  }

  ghost predicate Inv(accepts: Validator, w: World) {
    PendingIsOpen(w) && NoLostWakeUp(w) && AnswersAllowed(accepts, w)
  }

  // A call takes a step of its own that sends nothing.
  lemma OwnStepKeepsInv(accepts: Validator, w: World, n: nat, x: Ask)
    requires Inv(accepts, w) && n < |w.asks|
    requires x.request == w.asks[n].request && x.channel == w.asks[n].channel
    requires x.phase.Waiting? ==> w.asks[n].phase.Waiting?
    requires x.phase.Done? ==> !x.channel.Empty? && Allowed(accepts, x.request.input, x.phase.response)
    ensures Inv(accepts, w.(asks := w.asks[n := x]))
  {
  }

  // The entry of `id` is taken out and its call, if any, becomes `x`.
  lemma TakingOutKeepsInv(accepts: Validator, w: World, id: string, x: Ask)
    requires Inv(accepts, w) && id in w.pending
    requires var was := w.asks[w.pending[id]];
             x.request == was.request && x.phase == was.phase && (x.channel.Empty? ==> !x.phase.Waiting?)
    requires x.channel.Value? ==> Allowed(accepts, x.request.input, x.channel.response)
    ensures Inv(accepts, World(w.pending - {id}, w.asks[w.pending[id] := x]))
  {
  }

  lemma DroppingKeepsInv(accepts: Validator, w: World, id: string)
    requires Inv(accepts, w)
    ensures Inv(accepts, World(w.pending - {id}, DropSender(w, id)))
  {
    if id in w.pending {
      TakingOutKeepsInv(accepts, w, id, w.asks[w.pending[id]].(channel := Closed));
    } else {
      assert w.pending - {id} == w.pending;
    }
  }

  lemma AskingKeepsInv(accepts: Validator, w: World, r: Request)
    requires Inv(accepts, w) && r.id !in w.pending
    ensures Inv(accepts, World(w.pending[r.id := |w.asks|], w.asks + [Ask(r, Empty, Waiting)]))
  {
  }

  lemma RemovingKeepsInv(accepts: Validator, w: World, n: nat)
    requires Inv(accepts, w) && Enabled(w, RemoveIfPending(n))
    ensures Inv(accepts, Next(accepts, w, RemoveIfPending(n)))
  {
    DroppingKeepsInv(accepts, w, w.asks[n].request.id);
  }

  lemma CancellingKeepsInv(accepts: Validator, w: World, ids: set<string>)
    requires Inv(accepts, w)
    ensures Inv(accepts, CancelIds(w, ids))
  {
  }

  lemma NextKeepsInv(accepts: Validator, w: World, a: Action)
    requires Inv(accepts, w) && Enabled(w, a)
    ensures Inv(accepts, Next(accepts, w, a))
  {
    match a
    case AskFor(r) =>
      DroppingKeepsInv(accepts, w, r.id);
      var dropped := World(w.pending - {r.id}, DropSender(w, r.id));
      AskingKeepsInv(accepts, dropped, r);
      assert (w.pending - {r.id})[r.id := |w.asks|] == w.pending[r.id := |w.asks|];
    case Submit(_, id, _, _, response) =>
      if Outcome(accepts, w, a).Ok? {
        TakingOutKeepsInv(accepts, w, id, Deliver(w.asks[w.pending[id]], response));
      }
    case CancelTurn(session, turn) => CancellingKeepsInv(accepts, w, TurnIds(w, session, turn));
    case Receive(n) => OwnStepKeepsInv(accepts, w, n, Next(accepts, w, a).asks[n]);
    case TimerFires(n) => OwnStepKeepsInv(accepts, w, n, Next(accepts, w, a).asks[n]);
    case RemoveIfPending(n) => RemovingKeepsInv(accepts, w, n);
    case Abandon(n) => OwnStepKeepsInv(accepts, w, n, Next(accepts, w, a).asks[n]);
  }

  ghost predicate IsRun(accepts: Validator, w: World, actions: seq<Action>)
    decreases |actions|
  {
    actions == [] || (Enabled(w, actions[0]) && IsRun(accepts, Next(accepts, w, actions[0]), actions[1..]))
  }

  ghost function RunEnd(accepts: Validator, w: World, actions: seq<Action>): World
    requires IsRun(accepts, w, actions)
    decreases |actions|
  {
    if actions == [] then w else RunEnd(accepts, Next(accepts, w, actions[0]), actions[1..])
  }

  const START := World(map[], [])

  lemma {:induction false} RunKeepsInv(accepts: Validator, w: World, actions: seq<Action>)
    requires Inv(accepts, w) && IsRun(accepts, w, actions)
    ensures Inv(accepts, RunEnd(accepts, w, actions))
    decreases |actions|
  {
    if actions != [] {
      NextKeepsInv(accepts, w, actions[0]);
      RunKeepsInv(accepts, Next(accepts, w, actions[0]), actions[1..]);
    }
  }

  // Main result 1: no lost wake-up.  In every run a waiting asker either has an
  // answer to take or can still be answered under its identity, and then gets
  // exactly that answer.
  lemma WaitersCanBeAnswered(accepts: Validator, actions: seq<Action>, n: nat, response: Response)
    requires IsRun(accepts, START, actions)
    requires n < |RunEnd(accepts, START, actions).asks|
    requires RunEnd(accepts, START, actions).asks[n].phase.Waiting?
    ensures var w := RunEnd(accepts, START, actions);
            if w.asks[n].channel.Empty? then
              var r := w.asks[n].request;
              var submit := Submit(r.session, r.id, r.turn, r.call, response);
              && HasSender(w, n)
              && Outcome(accepts, w, submit) == (if accepts(r.input, response) then Ok else InvalidResponse)
              && (accepts(r.input, response) ==>
                    var w' := Next(accepts, w, submit);
                    Enabled(w', Receive(n)) && Next(accepts, w', Receive(n)).asks[n].phase == Done(response))
            else
              Enabled(w, Receive(n))
  {
    RunKeepsInv(accepts, START, actions);
  }

  // ------------------------------------------------------- one success at most

  predicate Answers(accepts: Validator, w: World, a: Action, n: nat)
    requires Enabled(w, a)
  {
    a.Submit? && Outcome(accepts, w, a).Ok? && w.pending[a.id] == n
  }

  ghost function Successes(accepts: Validator, w: World, actions: seq<Action>, n: nat): nat
    requires IsRun(accepts, w, actions)
    decreases |actions|
  {
    if actions == [] then 0
    else (if Answers(accepts, w, actions[0], n) then 1 else 0) +
         Successes(accepts, Next(accepts, w, actions[0]), actions[1..], n)
  }

  // A sender is created with its call and used up by a success.
  predicate MayStillSucceed(w: World, n: nat) {
    n >= |w.asks| || HasSender(w, n)
  }

  lemma SendersAreUsedUp(accepts: Validator, w: World, a: Action, n: nat)
    requires Inv(accepts, w) && Enabled(w, a)
    ensures MayStillSucceed(Next(accepts, w, a), n) ==> MayStillSucceed(w, n)
    ensures Answers(accepts, w, a, n) ==> MayStillSucceed(w, n) && !MayStillSucceed(Next(accepts, w, a), n)
  {
  }

  lemma {:induction false} SuccessesBounded(accepts: Validator, w: World, actions: seq<Action>, n: nat)
    requires Inv(accepts, w) && IsRun(accepts, w, actions)
    ensures Successes(accepts, w, actions, n) <= if MayStillSucceed(w, n) then 1 else 0
    decreases |actions|
  {
    if actions != [] {
      SendersAreUsedUp(accepts, w, actions[0], n);
      NextKeepsInv(accepts, w, actions[0]);
      SuccessesBounded(accepts, Next(accepts, w, actions[0]), actions[1..], n);
    }
  }

  // Main result 2: over any run, one call of `ask` meets at most one successful
  // submit.
  lemma AtMostOneSuccess(accepts: Validator, actions: seq<Action>, n: nat)
    requires IsRun(accepts, START, actions)
    ensures Successes(accepts, START, actions, n) <= 1
  {
    SuccessesBounded(accepts, START, actions, n);
  }

  // --------------------------------------------------- which answer is returned

  // From here on the call can only return `r`.
  predicate Bound(w: World, n: nat, r: Response) {
    n < |w.asks| &&
    match w.asks[n].phase
    case Waiting => w.asks[n].channel == Value(r)
    case Expiring => r == EXPIRED
    case Done(got) => got == r
    case Gone => true
  }

  lemma BoundStays(accepts: Validator, w: World, a: Action, n: nat, r: Response)
    requires Inv(accepts, w) && Enabled(w, a) && Bound(w, n, r)
    ensures Bound(Next(accepts, w, a), n, r)
  {
  }

  lemma {:induction false} BoundForEver(accepts: Validator, w: World, actions: seq<Action>, n: nat, r: Response)
    requires Inv(accepts, w) && IsRun(accepts, w, actions) && Bound(w, n, r)
    ensures Bound(RunEnd(accepts, w, actions), n, r)
    decreases |actions|
  {
    if actions != [] {
      BoundStays(accepts, w, actions[0], n, r);
      NextKeepsInv(accepts, w, actions[0]);
      BoundForEver(accepts, Next(accepts, w, actions[0]), actions[1..], n, r);
    }
  }

  // Main result 3: after a successful submit the call returns that response if
  // and only if its timer had not fired; otherwise the accepted answer is lost
  // and the call reports expiry.
  lemma SuccessDecidesTheAnswer(
      accepts: Validator, before: seq<Action>, submit: Action, after: seq<Action>, n: nat)
    requires IsRun(accepts, START, before)
    requires var w := RunEnd(accepts, START, before);
             && Enabled(w, submit) && Answers(accepts, w, submit, n)
             && IsRun(accepts, Next(accepts, w, submit), after)
    ensures var w := RunEnd(accepts, START, before);
            var end := RunEnd(accepts, Next(accepts, w, submit), after);
            && n < |w.asks| && n < |end.asks|
            && (end.asks[n].phase.Done? ==>
                  end.asks[n].phase.response == if w.asks[n].phase.Waiting? then submit.response else EXPIRED)
            && (end.asks[n].phase.Waiting? ==> Enabled(end, Receive(n)))
  {
    RunKeepsInv(accepts, START, before);
    var w := RunEnd(accepts, START, before);
    var w' := Next(accepts, w, submit);
    NextKeepsInv(accepts, w, submit);
    BoundForEver(accepts, w', after, n, if w.asks[n].phase.Waiting? then submit.response else EXPIRED);
  }

  // The answer to request `r`, as the user sends it.
  function AnswerTo(r: Request, response: Response): Action {
    Submit(r.session, r.id, r.turn, r.call, response)
  }

  // Every call that still waits for its answer can lose an accepted one: the
  // timer fires, the answer is accepted, and then the entry is removed.
  lemma OpenCallCanLose(accepts: Validator, w: World, n: nat, response: Response)
    requires Inv(accepts, w) && HasSender(w, n) && w.asks[n].phase.Waiting? && w.asks[n].channel.Empty?
    requires accepts(w.asks[n].request.input, response)
    ensures var submit := AnswerTo(w.asks[n].request, response);
            && Enabled(w, TimerFires(n))
            && var fired := Next(accepts, w, TimerFires(n));
               && Enabled(fired, submit) && Outcome(accepts, fired, submit) == Ok
               && var accepted := Next(accepts, fired, submit);
                  && Enabled(accepted, RemoveIfPending(n))
                  && Next(accepts, accepted, RemoveIfPending(n)).asks[n].phase == Done(EXPIRED)
  {
  }

  // A run that does so, for every request and every valid response to it.
  lemma AcceptedAnswerIsLost(accepts: Validator, r: Request, response: Response)
    requires accepts(r.input, response)
    ensures var (before, submit, after) := ([AskFor(r), TimerFires(0)], AnswerTo(r, response), [RemoveIfPending(0)]);
            && IsRun(accepts, START, before)
            && var w := RunEnd(accepts, START, before);
               && Enabled(w, submit) && Answers(accepts, w, submit, 0)
               && IsRun(accepts, Next(accepts, w, submit), after)
               && RunEnd(accepts, Next(accepts, w, submit), after).asks[0].phase == Done(EXPIRED)
  {
    var (before, submit, after) := ([AskFor(r), TimerFires(0)], AnswerTo(r, response), [RemoveIfPending(0)]);
    var w1 := Next(accepts, START, AskFor(r));
    NextKeepsInv(accepts, START, AskFor(r));
    assert w1.asks == [Ask(r, Empty, Waiting)];
    OpenCallCanLose(accepts, w1, 0, response);
    assert before[1..] == [TimerFires(0)] && before[1..][1..] == [];
    var w2 := Next(accepts, w1, TimerFires(0));
    assert IsRun(accepts, w1, before[1..]) && RunEnd(accepts, w1, before[1..]) == w2;
    assert after[1..] == [];
  }

  // ------------------------------------------------------ what consumes nothing

  // A submit goes through exactly when some open call has all four identifiers
  // and accepts the response; otherwise nothing changes.
  lemma SubmitSucceedsIff(accepts: Validator, w: World, a: Action)
    requires Inv(accepts, w) && Enabled(w, a) && a.Submit?
    ensures Outcome(accepts, w, a).Ok? <==>
            exists n: nat :: HasSender(w, n) && w.asks[n].request.id == a.id && w.asks[n].request.call == a.call &&
                        Belongs(w.asks[n].request, a.session, a.turn) && accepts(w.asks[n].request.input, a.response)
    ensures !Outcome(accepts, w, a).Ok? ==> Next(accepts, w, a) == w
  {
    if Outcome(accepts, w, a).Ok? {
      assert HasSender(w, w.pending[a.id]);
    }
  }

  // What a submit reports: an unknown identifier, then an identifier of another
  // call, then a response that the validator refuses.
  lemma OutcomeIs(accepts: Validator, w: World, a: Action)
    requires Inv(accepts, w) && Enabled(w, a) && a.Submit?
    ensures Outcome(accepts, w, a) == NotPending <==> a.id !in w.pending
    ensures a.id in w.pending ==>
              var r := w.asks[w.pending[a.id]].request;
              && (Outcome(accepts, w, a) == IdentityMismatch <==> (r.session, r.turn, r.call) != (a.session, a.turn, a.call))
              && (Outcome(accepts, w, a) == InvalidResponse <==>
                  (r.session, r.turn, r.call) == (a.session, a.turn, a.call) && !accepts(r.input, a.response))
  {
  }

  // What `ask` returns: the value it received, a cancellation if its sender was
  // dropped instead, and an expiry once its timer has fired.
  lemma AskReturns(accepts: Validator, w: World, n: nat)
    requires Inv(accepts, w) && n < |w.asks|
    ensures Enabled(w, Receive(n)) ==>
              Next(accepts, w, Receive(n)).asks[n].phase ==
              Done(if w.asks[n].channel.Value? then w.asks[n].channel.response else Response(Cancelled, None))
    ensures Enabled(w, RemoveIfPending(n)) ==>
              var w' := Next(accepts, w, RemoveIfPending(n));
              w'.asks[n].phase == Done(Response(Expired, None)) && w.asks[n].request.id !in w'.pending
  {
  }

  // No call is ever stuck: a waiting one has something to take or can run into
  // its timer, and an expired one can take its entry out, whatever became of it.
  lemma NoAskIsStuck(accepts: Validator, w: World, n: nat)
    requires Inv(accepts, w) && n < |w.asks|
    ensures match w.asks[n].phase
            case Waiting => Enabled(w, Abandon(n)) && if w.asks[n].channel == Empty then Enabled(w, TimerFires(n)) else Enabled(w, Receive(n))
            case Expiring => Enabled(w, RemoveIfPending(n))
            case _ => true
  {
  }

  // A second call under the same identifier takes the entry over and closes the
  // channel of the first.
  lemma SecondAskReplaces(accepts: Validator, w: World, r: Request, n: nat)
    requires Inv(accepts, w) && HasSender(w, n) && w.asks[n].request.id == r.id && w.asks[n].phase.Waiting?
    ensures var w' := Next(accepts, w, AskFor(r));
            && HasSender(w', |w.asks|) && !HasSender(w', n)
            && w'.asks[n].channel == Closed && w'.asks[n].phase == Waiting
  {
  }

  // A call whose future was dropped while it waited leaves its entry behind: the
  // request stays listed, and an answer to it is accepted though nobody reads it.
  lemma DroppedAskStaysListed(accepts: Validator, w: World, n: nat, response: Response)
    requires Inv(accepts, w) && HasSender(w, n) && w.asks[n].phase.Waiting?
    ensures Enabled(w, Abandon(n))
    ensures var (w', submit) := (Next(accepts, w, Abandon(n)), AnswerTo(w.asks[n].request, response));
            && w'.pending == w.pending && w'.asks == w.asks[n := Ask(w.asks[n].request, Empty, Gone)] && HasSender(w', n)
            && (accepts(w.asks[n].request.input, response) ==>
                  Outcome(accepts, w', submit) == Ok && Next(accepts, w', submit) == World(w'.pending - {submit.id}, w'.asks))
  {
  }

  lemma {:induction false} DroppedAskNeverReturns(accepts: Validator, w: World, actions: seq<Action>, n: nat)
    requires Inv(accepts, w) && IsRun(accepts, w, actions) && n < |w.asks| && w.asks[n].phase.Gone?
    ensures var end := RunEnd(accepts, w, actions); n < |end.asks| && end.asks[n].phase.Gone?
    decreases |actions|
  {
    if actions != [] {
      NextKeepsInv(accepts, w, actions[0]);
      DroppedAskNeverReturns(accepts, Next(accepts, w, actions[0]), actions[1..], n);
    }
  }

  // Exactly which steps take out the entry of a call: an accepted answer, the
  // end of its turn, and a new call or a timer under the same identifier.
  lemma EntryGoesIff(accepts: Validator, w: World, a: Action, n: nat)
    requires Inv(accepts, w) && Enabled(w, a) && HasSender(w, n)
    ensures !HasSender(Next(accepts, w, a), n) <==>
            match a
            case AskFor(r) => r.id == w.asks[n].request.id
            case Submit(_, id, _, _, _) => id == w.asks[n].request.id && Outcome(accepts, w, a) == Ok
            case CancelTurn(session, turn) => w.asks[n].request.session == session && w.asks[n].request.turn == turn
            case RemoveIfPending(m) => w.asks[m].request.id == w.asks[n].request.id
            case _ => false
  {
  }

  // Cancelling a turn ends the open calls of that turn and touches no other.
  lemma CancelTurnIsExact(accepts: Validator, w: World, session: string, turn: string, n: nat)
    requires Inv(accepts, w) && n < |w.asks|
    ensures var w' := Next(accepts, w, CancelTurn(session, turn));
            && |w'.asks| == |w.asks|
            && if Belongs(w.asks[n].request, session, turn) then
                 && !HasSender(w', n)
                 && (w.asks[n].phase.Waiting? && w.asks[n].channel.Empty? ==> w'.asks[n].channel == Value(CANCELLED))
                 && (!w.asks[n].channel.Empty? ==> w'.asks[n] == w.asks[n])
               else
                 w'.asks[n] == w.asks[n] && HasSender(w', n) == HasSender(w, n)
  {
  }

  // ---------------------------------------------------- the manager in place

  // Each method is one section under the lock, or one step of an `ask` future.
  class AskUserManager {
    const accepts: Validator
    var pending: map<string, nat>
    var asks: seq<Ask>

    function Abs(): World
      reads this
    {
      World(pending, asks)
    }

    ghost predicate Valid()
      reads this
    {
      Inv(accepts, Abs())
    }

    constructor (accepts: Validator)
      ensures Valid() && Abs() == START && this.accepts == accepts
    {
      this.accepts := accepts;
      pending, asks := map[], [];
    }

    function PendingForSession(session: string): (ids: set<string>)
      requires Valid()
      reads this
      ensures forall id :: id in ids <==>
                exists n | 0 <= n < |asks| :: HasSender(Abs(), n) && asks[n].request.id == id && asks[n].request.session == session
    {
      set id | id in pending && asks[pending[id]].request.session == session
    }

    method BeginAsk(r: Request) returns (n: nat)
      requires Valid()
      modifies this
      ensures Valid() && Abs() == Next(accepts, old(Abs()), AskFor(r))
      ensures n == |old(asks)| && asks[n] == Ask(r, Empty, Waiting) && HasSender(Abs(), n)
    {
      NextKeepsInv(accepts, Abs(), AskFor(r));
      n := |asks|;
      if r.id in pending {
        asks := asks[pending[r.id] := asks[pending[r.id]].(channel := Closed)];
      }
      asks := asks + [Ask(r, Empty, Waiting)];
      pending := pending[r.id := n];
    }

    method SubmitAnswer(session: string, id: string, turn: string, call: string, response: Response)
      returns (result: SubmitResult)
      requires Valid()
      modifies this
      ensures Valid()
      ensures var a := Submit(session, id, turn, call, response);
              Abs() == Next(accepts, old(Abs()), a) && result == Outcome(accepts, old(Abs()), a)
      ensures result == NotPending <==> id !in old(pending)
    {
      NextKeepsInv(accepts, Abs(), Submit(session, id, turn, call, response));
      if id !in pending {
        return NotPending;
      }
      var n := pending[id];
      var request := asks[n].request;
      if request.session != session || request.turn != turn || request.call != call {
        return IdentityMismatch;
      }
      if !accepts(request.input, response) {
        return InvalidResponse;
      }
      pending := pending - {id};
      asks := asks[n := Deliver(asks[n], response)];
      return Ok;
    }

    method CancelTurnOf(session: string, turn: string)
      requires Valid()
      modifies this
      ensures Valid() && Abs() == Next(accepts, old(Abs()), CancelTurn(session, turn))
    {
      NextKeepsInv(accepts, Abs(), CancelTurn(session, turn));
      var ids := TurnIds(Abs(), session, turn);
      CancelNone(Abs());
      var rest := ids;
      while rest != {}
        invariant Valid() && rest <= pending.Keys && rest <= ids
        invariant Abs() == CancelIds(old(Abs()), ids - rest)
        decreases rest
      {
        var id :| id in rest;
        CancelOneMore(accepts, old(Abs()), ids - rest, id);
        assert ids - (rest - {id}) == (ids - rest) + {id};
        var n := pending[id];
        pending := pending - {id};
        asks := asks[n := Deliver(asks[n], CANCELLED)];
        rest := rest - {id};
      }
      assert ids - {} == ids;
    }

    // The answer arrived, or the sender was dropped.
    method TakeAnswer(n: nat) returns (response: Response)
      requires Valid() && Enabled(Abs(), Receive(n))
      modifies this`asks
      ensures Valid() && Abs() == Next(accepts, old(Abs()), Receive(n)) && asks[n].phase == Done(response)
    {
      NextKeepsInv(accepts, Abs(), Receive(n));
      response := if asks[n].channel.Value? then asks[n].channel.response else CANCELLED;
      asks := asks[n := asks[n].(phase := Done(response))];
    }

    method FireTimer(n: nat)
      requires Valid() && Enabled(Abs(), TimerFires(n))
      modifies this`asks
      ensures Valid() && Abs() == Next(accepts, old(Abs()), TimerFires(n))
    {
      NextKeepsInv(accepts, Abs(), TimerFires(n));
      asks := asks[n := asks[n].(phase := Expiring)];
    }

    method ExpireAsk(n: nat) returns (response: Response)
      requires Valid() && Enabled(Abs(), RemoveIfPending(n))
      modifies this
      ensures Valid() && Abs() == Next(accepts, old(Abs()), RemoveIfPending(n)) && asks[n].phase == Done(response)
    {
      NextKeepsInv(accepts, Abs(), RemoveIfPending(n));
      var id := asks[n].request.id;
      if id in pending {
        asks := asks[pending[id] := asks[pending[id]].(channel := Closed)];
      }
      pending := pending - {id};
      response := EXPIRED;
      asks := asks[n := asks[n].(phase := Done(response))];
    }
  }

  lemma CancelNone(w: World)
    ensures CancelIds(w, {}) == w
  {
    assert w.pending - {} == w.pending;
    assert CancelIds(w, {}).asks == w.asks;
  }

  lemma CancelOneMore(accepts: Validator, w: World, done: set<string>, id: string)
    requires Inv(accepts, w) && id in w.pending && id !in done
    ensures var w' := CancelIds(w, done);
            && id in w'.pending && w'.pending[id] == w.pending[id]
            && CancelIds(w, done + {id}) ==
                 World(w'.pending - {id}, w'.asks[w'.pending[id] := Deliver(w'.asks[w'.pending[id]], CANCELLED)])
            && Inv(accepts, CancelIds(w, done + {id}))
  {
    var w' := CancelIds(w, done);
    var n := w.pending[id];
    assert w'.pending - {id} == w.pending - (done + {id});
    assert CancelIds(w, done + {id}).asks == w'.asks[n := Deliver(w'.asks[n], CANCELLED)];
    CancellingKeepsInv(accepts, w, done + {id});
  }
}
