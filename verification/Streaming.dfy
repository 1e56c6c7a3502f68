// Persistence of a streamed turn: the accumulated text is saved at most every
// 500 ms, by one append and then in-place updates, and once more at the end.
// Other tasks use the same table in between.
module Streaming {
  import opened Wrappers
  import opened SessionStore

  const SAVE_INTERVAL := 500
  const MARKER := "[interrupted by user]"

  datatype Event =
    | Chunk(delta: string, now: int)
    | Elsewhere(op: Op)   // a statement of another task

  // The text so far, the text of the last partial save, and when the clock of
  // the saves was last set.
  datatype Turn = Turn(text: string, saved: Option<string>, lastSave: int)

  datatype Outcome =
    | Finished(response: string, enriched: Option<string>)
    | Interrupted
    | Failed

  datatype State = State(store: Store, turn: Turn)

  function Assistant(text: string): Message {
    Message("assistant", text)
  }

  // A partial or final save: the first one appends, later ones overwrite.
  function Save(t: Turn, session: string, text: string): Op {
    if t.saved.Some? then UpdateLast(session, Assistant(text)) else Append(session, Assistant(text))
  }

  function Step(st: State, session: string, e: Event): State {
    match e
    case Chunk(delta, now) =>
      var text := st.turn.text + delta;
      if now - st.turn.lastSave >= SAVE_INTERVAL then
        State(Apply(st.store, Save(st.turn, session, text)), Turn(text, Some(text), now))
      else
        st.(turn := st.turn.(text := text))
    case Elsewhere(op) => st.(store := Apply(st.store, op))
  }

  function Run(st: State, session: string, events: seq<Event>): State
    decreases |events|
  {
    if events == [] then st else Run(Step(st, session, events[0]), session, events[1..])
  }

  // What the final row holds; a failed turn writes none.
  function FinalText(outcome: Outcome, text: string): Option<string> {
    match outcome
    case Finished(response, _) => Some(if text == "" then response else text)
    case Interrupted => Some(if text == "" then MARKER else text + "\n\n" + MARKER)
    case Failed => None
  }

  function Enrich(s: Store, session: string, outcome: Outcome): Store {
    if outcome.Finished? && outcome.enriched.Some? then Apply(s, UpdateLastUser(session, outcome.enriched.value)) else s
  }

  function Finish(st: State, session: string, outcome: Outcome): Store {
    match FinalText(outcome, st.turn.text)
    case None => st.store
    case Some(text) => Enrich(Apply(st.store, Save(st.turn, session, text)), session, outcome)
  }

  // ------------------------------------------------- one append at the end

  function Text(events: seq<Event>): string
    decreases |events|
  {
    if events == [] then "" else (match events[0] case Chunk(delta, _) => delta case Elsewhere(_) => "") + Text(events[1..])
  }

  function OthersStep(s: Store, e: Event): Store {
    match e
    case Chunk(_, _) => s
    case Elsewhere(op) => Apply(s, op)
  }

  function OnlyElsewhere(s: Store, events: seq<Event>): Store
    decreases |events|
  {
    if events == [] then s else OnlyElsewhere(OthersStep(s, events[0]), events[1..])
  }

  // The reference: nothing is saved before the turn ends.
  function OneAppend(s: Store, session: string, events: seq<Event>, outcome: Outcome): Store {
    Finish(State(OnlyElsewhere(s, events), Turn(Text(events), None, 0)), session, outcome)
  }

  // No other task writes to the session while its turn runs.
  predicate SingleWriter(session: string, events: seq<Event>) {
    forall i | 0 <= i < |events| :: events[i].Elsewhere? ==> events[i].op.session != session
  }

  // The transcript mid-turn: what was there before, then at most one row, which
  // the next save overwrites.
  ghost predicate Grown(before: seq<Message>, st: State, session: string) {
    Transcript(st.store.rows, session) == before + SavedRow(st.turn.saved)
  }

  // The same, where that row holds a prefix of the accumulated text.
  ghost predicate InFlight(before: seq<Message>, st: State, session: string) {
    Grown(before, st, session) && (st.turn.saved.Some? ==> st.turn.saved.value <= st.turn.text)
  }

  function SavedRow(saved: Option<string>): seq<Message> {
    if saved.Some? then [Assistant(saved.value)] else []
  }

  // The naive table sees the same transcripts of all other sessions.
  ghost predicate SameElsewhere(s: Store, naive: Store, session: string) {
    forall k | k != session :: Transcript(s.rows, k) == Transcript(naive.rows, k)
  }

  lemma OthersStayPaired(s: Store, naive: Store, op: Op, session: string)
    requires WellFormed(s) && WellFormed(naive) && SameElsewhere(s, naive, session) && op.session != session
    ensures SameElsewhere(Apply(s, op), Apply(naive, op), session)
    ensures Transcript(Apply(s, op).rows, session) == Transcript(s.rows, session)
  {
    OperationsAreEdits(s, op, session);
    forall k | k != session
      ensures Transcript(Apply(s, op).rows, k) == Transcript(Apply(naive, op).rows, k)
    {
      OperationsAreEdits(s, op, k);
      OperationsAreEdits(naive, op, k);
    }
  }

  lemma OwnOpStaysHome(s: Store, op: Op, session: string)
    requires WellFormed(s) && op.session == session
    ensures SameElsewhere(Apply(s, op), s, session)
  {
    forall k | k != session
      ensures Transcript(Apply(s, op).rows, k) == Transcript(s.rows, k)
    {
      OperationsAreEdits(s, op, k);
    }
  }

  // A save leaves the earlier rows and one assistant row with the text.
  lemma SaveLeavesOneRow(before: seq<Message>, st: State, session: string, text: string)
    requires WellFormed(st.store) && Grown(before, st, session)
    ensures Transcript(Apply(st.store, Save(st.turn, session, text)).rows, session) == before + [Assistant(text)]
  {
    OperationsAreEdits(st.store, Save(st.turn, session, text), session);
    if st.turn.saved.Some? {
      EditsSnoc(before, Assistant(st.turn.saved.value), "assistant", text);
    } else {
      assert before + [] == before;
    }
  }

  // The turn's table and the naive one side by side.
  ghost predicate Paired(before: seq<Message>, st: State, naive: Store, session: string) {
    WellFormed(st.store) && WellFormed(naive) && InFlight(before, st, session) &&
    SameElsewhere(st.store, naive, session) && Transcript(naive.rows, session) == before
  }

  lemma StepKeepsPair(before: seq<Message>, st: State, naive: Store, session: string, e: Event)
    requires Paired(before, st, naive, session) && (e.Elsewhere? ==> e.op.session != session)
    ensures Paired(before, Step(st, session, e), OthersStep(naive, e), session)
  {
    match e
    case Chunk(delta, now) =>
      var text := st.turn.text + delta;
      SaveLeavesOneRow(before, st, session, text);
      ApplyKeepsWellFormed(st.store, Save(st.turn, session, text));
      OwnOpStaysHome(st.store, Save(st.turn, session, text), session);
    case Elsewhere(op) =>
      ApplyKeepsWellFormed(st.store, op);
      ApplyKeepsWellFormed(naive, op);
      OthersStayPaired(st.store, naive, op, session);
      OperationsAreEdits(naive, op, session);
  }

  lemma StepText(st: State, session: string, e: Event)
    ensures Step(st, session, e).turn.text == st.turn.text + Text([e])
  {
  }

  lemma {:induction false} RunKeepsPair(before: seq<Message>, st: State, naive: Store, session: string, events: seq<Event>)
    requires Paired(before, st, naive, session) && SingleWriter(session, events)
    ensures Paired(before, Run(st, session, events), OnlyElsewhere(naive, events), session)
    decreases |events|
  {
    if events != [] {
      StepKeepsPair(before, st, naive, session, events[0]);
      RunKeepsPair(before, Step(st, session, events[0]), OthersStep(naive, events[0]), session, events[1..]);
    }
  }

  lemma {:induction false} RunText(st: State, session: string, events: seq<Event>)
    ensures Run(st, session, events).turn.text == st.turn.text + Text(events)
    decreases |events|
  {
    if events != [] {
      StepText(st, session, events[0]);
      RunText(Step(st, session, events[0]), session, events[1..]);
      assert Text(events) == Text([events[0]]) + Text(events[1..]);
    }
  }

  function Begin(s: Store, now: int): State {
    State(s, Turn("", None, now))
  }

  // A chunk arrives when a save is due, counting from `start`.
  predicate SaveDue(events: seq<Event>, start: int) {
    exists i | 0 <= i < |events| :: events[i].Chunk? && events[i].now - start >= SAVE_INTERVAL
  }

  // A chunk 500 ms or more after the last save writes the whole text so far, and
  // the clock of the saves starts again; any other chunk leaves the table alone.
  lemma SavesArePaced(st: State, session: string, delta: string, now: int)
    ensures var st' := Step(st, session, Chunk(delta, now));
            && st'.turn.text == st.turn.text + delta
            && if now - st.turn.lastSave >= 500 then st'.turn.saved == Some(st'.turn.text) && st'.turn.lastSave == now
               else st' == State(st.store, Turn(st'.turn.text, st.turn.saved, st.turn.lastSave))
  {
  }

  // A partial save happens exactly if some chunk arrives late enough.
  lemma {:induction false} SavedIff(st: State, session: string, events: seq<Event>)
    ensures Run(st, session, events).turn.saved.Some? <==> st.turn.saved.Some? || SaveDue(events, st.turn.lastSave)
    decreases |events|
  {
    if events != [] {
      var st' := Step(st, session, events[0]);
      SavedIff(st', session, events[1..]);
      if st'.turn.lastSave == st.turn.lastSave {
        LaterChunks(events, st.turn.lastSave);
      } else {
        assert events[0].Chunk?;
      }
    }
  }

  lemma LaterChunks(events: seq<Event>, start: int)
    requires events != []
    ensures SaveDue(events, start) <==>
            (events[0].Chunk? && events[0].now - start >= SAVE_INTERVAL) || SaveDue(events[1..], start)
  {
    assert forall i | 1 <= i < |events| :: events[i] == events[1..][i - 1];
    assert forall i | 0 <= i < |events| - 1 :: events[1..][i] == events[i + 1];
  }

  // Main result 1: at every moment of a turn the earlier rows are untouched and
  // the transcript has grown by at most one row, a prefix of the text so far;
  // the row is there exactly if a save was due.
  lemma EveryMomentIsAPrefix(s: Store, session: string, events: seq<Event>, now: int)
    requires WellFormed(s) && SingleWriter(session, events)
    ensures var end := Run(Begin(s, now), session, events);
            && end.turn.text == Text(events)
            && Transcript(end.store.rows, session) == Transcript(s.rows, session) + SavedRow(end.turn.saved)
            && (end.turn.saved.Some? ==> end.turn.saved.value <= Text(events))
            && (end.turn.saved.Some? <==> exists i | 0 <= i < |events| :: events[i].Chunk? && events[i].now - now >= 500)
  {
    BeginRun(s, session, events, now);
    SavedIff(Begin(s, now), session, events);
  }

  lemma BeginRun(s: Store, session: string, events: seq<Event>, now: int)
    requires WellFormed(s) && SingleWriter(session, events)
    ensures Paired(Transcript(s.rows, session), Run(Begin(s, now), session, events), OnlyElsewhere(s, events), session)
    ensures Run(Begin(s, now), session, events).turn.text == Text(events)
  {
    RunKeepsPair(Transcript(s.rows, session), Begin(s, now), s, session, events);
    RunText(Begin(s, now), session, events);
  }

  function EnrichedBefore(before: seq<Message>, outcome: Outcome): seq<Message> {
    if outcome.Finished? && outcome.enriched.Some? then ReplaceLast(before, "user", outcome.enriched.value) else before
  }

  lemma EnrichesLastUser(s: Store, session: string, outcome: Outcome, before: seq<Message>, text: string)
    requires WellFormed(s) && Transcript(s.rows, session) == before + [Assistant(text)]
    ensures Transcript(Enrich(s, session, outcome).rows, session) == EnrichedBefore(before, outcome) + [Assistant(text)]
  {
    if outcome.Finished? && outcome.enriched.Some? {
      OperationsAreEdits(s, UpdateLastUser(session, outcome.enriched.value), session);
      EditsSnoc(before, Assistant(text), "user", outcome.enriched.value);
    }
  }

  lemma FinishAddsOneRow(before: seq<Message>, st: State, session: string, outcome: Outcome)
    requires WellFormed(st.store) && Grown(before, st, session) && !outcome.Failed?
    ensures Transcript(Finish(st, session, outcome).rows, session) ==
            EnrichedBefore(before, outcome) + [Assistant(FinalText(outcome, st.turn.text).value)]
  {
    var text := FinalText(outcome, st.turn.text).value;
    SaveLeavesOneRow(before, st, session, text);
    ApplyKeepsWellFormed(st.store, Save(st.turn, session, text));
    EnrichesLastUser(Apply(st.store, Save(st.turn, session, text)), session, outcome, before, text);
  }

  lemma FinishStaysHome(st: State, session: string, outcome: Outcome, k: string)
    requires WellFormed(st.store) && k != session
    ensures Transcript(Finish(st, session, outcome).rows, k) == Transcript(st.store.rows, k)
  {
    if !outcome.Failed? {
      var save := Save(st.turn, session, FinalText(outcome, st.turn.text).value);
      OwnOpStaysHome(st.store, save, session);
      ApplyKeepsWellFormed(st.store, save);
      if outcome.Finished? && outcome.enriched.Some? {
        OwnOpStaysHome(Apply(st.store, save), UpdateLastUser(session, outcome.enriched.value), session);
      }
    }
  }

  // Main result 2: any number and timing of partial saves ends, for every
  // session, with the transcript that one append at the end would have left,
  // except for the session of a turn that fails after a save was due.
  lemma PartialSavesAreInvisibleIff(s: Store, session: string, events: seq<Event>, now: int, outcome: Outcome, k: string)
    requires WellFormed(s) && SingleWriter(session, events)
    ensures Transcript(Finish(Run(Begin(s, now), session, events), session, outcome).rows, k) ==
            Transcript(OneAppend(s, session, events, outcome).rows, k) <==>
            !(outcome.Failed? && k == session && SaveDue(events, now))
  {
    var before := Transcript(s.rows, session);
    BeginRun(s, session, events, now);
    SavedIff(Begin(s, now), session, events);
    var end := Run(Begin(s, now), session, events);
    var naive := State(OnlyElsewhere(s, events), Turn(Text(events), None, 0));
    assert before + [] == before;
    if k != session {
      FinishStaysHome(end, session, outcome, k);
      FinishStaysHome(naive, session, outcome, k);
    } else if outcome.Failed? {
      assert |before + SavedRow(end.turn.saved)| == |before| <==> end.turn.saved.None?;
    } else {
      FinishAddsOneRow(before, end, session, outcome);
      FinishAddsOneRow(before, naive, session, outcome);
    }
  }

  // What a turn adds to its session: one row with the final or marked text, or,
  // if it fails, the row of the last partial save.
  function AddedRow(outcome: Outcome, text: string, saved: Option<string>): seq<Message> {
    match FinalText(outcome, text)
    case Some(final) => [Assistant(final)]
    case None => SavedRow(saved)
  }

  // Main result 3: that row is all the turn adds, and it touches at most the
  // last user row before it.
  lemma TurnAddsOneRow(s: Store, session: string, events: seq<Event>, now: int, outcome: Outcome)
    requires WellFormed(s) && SingleWriter(session, events)
    ensures var end := Run(Begin(s, now), session, events);
            Transcript(Finish(end, session, outcome).rows, session) ==
            EnrichedBefore(Transcript(s.rows, session), outcome) + AddedRow(outcome, Text(events), end.turn.saved)
  {
    BeginRun(s, session, events, now);
    if !outcome.Failed? {
      FinishAddsOneRow(Transcript(s.rows, session), Run(Begin(s, now), session, events), session, outcome);
    }
  }

  // The streamed text is that of the chunks, in order.
  lemma {:induction false} TextGrows(events: seq<Event>, e: Event)
    ensures Text([]) == ""
    ensures Text(events + [e]) == Text(events) + (if e.Chunk? then e.delta else "")
    decreases |events|
  {
    if events == [] {
      assert events + [e] == [e];
    } else {
      assert (events + [e])[1..] == events[1..] + [e] && (events + [e])[0] == events[0];
      TextGrows(events[1..], e);
      Regroup(Text([events[0]]), Text(events[1..]), if e.Chunk? then e.delta else "");
    }
  }

  lemma Regroup(a: string, b: string, c: string)
    ensures a + (b + c) == a + b + c
  {
  }

  // What the user reads after a turn that was interrupted...
  lemma InterruptedTurnKeepsText(s: Store, session: string, events: seq<Event>, now: int)
    requires WellFormed(s) && SingleWriter(session, events)
    ensures Transcript(Finish(Run(Begin(s, now), session, events), session, Interrupted).rows, session) ==
            Transcript(s.rows, session) +
            [Message("assistant", if Text(events) == "" then "[interrupted by user]" else Text(events) + "\n\n[interrupted by user]")]
  {
    TurnAddsOneRow(s, session, events, now, Interrupted);
    MarkedText(Text(events));
  }

  lemma MarkedText(text: string)
    ensures FinalText(Interrupted, text) ==
            Some(if text == "" then "[interrupted by user]" else text + "\n\n[interrupted by user]")
  {
    Regroup(text, "\n\n", MARKER);
    assert "\n\n" + MARKER == "\n\n[interrupted by user]";
  }

  // ... and after one that finished: the streamed text, or else the response,
  // with the enriched user message, if there is one, in the place of the last.
  lemma FinishedTurnKeepsText(
      s: Store, session: string, events: seq<Event>, now: int, response: string, enriched: Option<string>, n: nat)
    requires WellFormed(s) && SingleWriter(session, events) && Newest(Transcript(s.rows, session), "user", n)
    ensures var before := Transcript(s.rows, session);
            Transcript(Finish(Run(Begin(s, now), session, events), session, Finished(response, enriched)).rows, session) ==
            (if enriched.Some? && n > 0 then before[n - 1 := Message("user", enriched.value)] else before) +
            [Message("assistant", if Text(events) == "" then response else Text(events))]
  {
    TurnAddsOneRow(s, session, events, now, Finished(response, enriched));
    if enriched.Some? {
      ReplacedAt(Transcript(s.rows, session), "user", enriched.value, n);
    }
  }

  // ... and after one that failed: the last partial save, if there was one.
  lemma FailedTurnKeepsPartialSave(s: Store, session: string, events: seq<Event>, now: int)
    requires WellFormed(s) && SingleWriter(session, events)
    ensures var end := Run(Begin(s, now), session, events);
            Transcript(Finish(end, session, Failed).rows, session) ==
            Transcript(s.rows, session) + if end.turn.saved.Some? then [Message("assistant", end.turn.saved.value)] else []
  {
    TurnAddsOneRow(s, session, events, now, Failed);
  }

  // Witness for a failing turn: on every table, one late chunk and an error
  // leave an assistant row without any mark.
  lemma FailedTurnLeavesRow(s: Store, session: string, delta: string, now: int)
    requires WellFormed(s)
    ensures var events := [Chunk(delta, now + 500)];
            && Transcript(Finish(Run(Begin(s, now), session, events), session, Failed).rows, session) ==
               Transcript(s.rows, session) + [Assistant(delta)]
            && Transcript(OneAppend(s, session, events, Failed).rows, session) == Transcript(s.rows, session)
  {
    var events := [Chunk(delta, now + 500)];
    assert events[1..] == [] && "" + delta == delta;
    assert OthersStep(s, events[0]) == s && OnlyElsewhere(s, events) == s;
    TurnAddsOneRow(s, session, events, now, Failed);
    assert Run(Begin(s, now), session, events) == Step(Begin(s, now), session, events[0]);
  }

  lemma LastUserStaysLast(before: seq<Message>, outcome: Outcome, row: seq<Message>)
    requires before != [] && before[|before| - 1].role == "user"
    requires row == [] || exists text :: row == [Assistant(text)]
    ensures var ms := EnrichedBefore(before, outcome) + row;
            HasRole(ms, "user") && UpToUser(ms) == EnrichedBefore(before, outcome)
  {
    var ms := EnrichedBefore(before, outcome);
    assert ms[|before| - 1].role == "user" && |ms| == |before|;
    if row == [] {
      assert ms + row == ms;
    } else {
      var text :| row == [Assistant(text)];
      EditsSnoc(ms, Assistant(text), "user", "");
    }
  }

  // Regenerating right after a turn that answered a user message takes exactly
  // that turn back, however it ended.
  lemma RemovalUndoesTheTurn(s: Store, session: string, events: seq<Event>, now: int, outcome: Outcome)
    requires WellFormed(s) && SingleWriter(session, events)
    requires var before := Transcript(s.rows, session); before != [] && before[|before| - 1].role == "user"
    ensures var done := Finish(Run(Begin(s, now), session, events), session, outcome);
            && WellFormed(done)
            && Transcript(Apply(done, RemoveLastTurn(session)).rows, session) == EnrichedBefore(Transcript(s.rows, session), outcome)
  {
    var end := Run(Begin(s, now), session, events);
    BeginRun(s, session, events, now);
    FinishKeepsWellFormed(end, session, outcome);
    TurnAddsOneRow(s, session, events, now, outcome);
    OperationsAreEdits(Finish(end, session, outcome), RemoveLastTurn(session), session);
    LastUserStaysLast(Transcript(s.rows, session), outcome, AddedRow(outcome, Text(events), end.turn.saved));
  }

  lemma FinishKeepsWellFormed(st: State, session: string, outcome: Outcome)
    requires WellFormed(st.store)
    ensures WellFormed(Finish(st, session, outcome))
  {
    if FinalText(outcome, st.turn.text).Some? {
      var save := Save(st.turn, session, FinalText(outcome, st.turn.text).value);
      ApplyKeepsWellFormed(st.store, save);
      if outcome.Finished? && outcome.enriched.Some? {
        ApplyKeepsWellFormed(Apply(st.store, save), UpdateLastUser(session, outcome.enriched.value));
      }
    }
  }

  lemma ReplyAppended(s: Store, session: string, reply: string)
    requires WellFormed(s)
    ensures var replied := Apply(s, Append(session, Assistant(reply)));
            WellFormed(replied) && Transcript(replied.rows, session) == Transcript(s.rows, session) + [Assistant(reply)]
  {
    OperationsAreEdits(s, Append(session, Assistant(reply)), session);
    ApplyKeepsWellFormed(s, Append(session, Assistant(reply)));
  }

  lemma StepGrows(before: seq<Message>, st: State, session: string, e: Event)
    requires WellFormed(st.store) && Grown(before, st, session) && (e.Elsewhere? ==> e.op.session != session)
    ensures WellFormed(Step(st, session, e).store) && Grown(before, Step(st, session, e), session)
  {
    match e
    case Chunk(delta, now) =>
      SaveLeavesOneRow(before, st, session, st.turn.text + delta);
      ApplyKeepsWellFormed(st.store, Save(st.turn, session, st.turn.text + delta));
    case Elsewhere(op) =>
      ApplyKeepsWellFormed(st.store, op);
      OperationsAreEdits(st.store, op, session);
  }

  lemma {:induction false} RunGrows(before: seq<Message>, st: State, session: string, events: seq<Event>)
    requires WellFormed(st.store) && Grown(before, st, session) && SingleWriter(session, events)
    ensures var end := Run(st, session, events); WellFormed(end.store) && Grown(before, end, session)
    decreases |events|
  {
    if events != [] {
      StepGrows(before, st, session, events[0]);
      RunGrows(before, Step(st, session, events[0]), session, events[1..]);
    }
  }

  lemma GrownEnds(before: seq<Message>, st: State, session: string, outcome: Outcome)
    requires WellFormed(st.store) && Grown(before, st, session)
    ensures Transcript(Finish(st, session, outcome).rows, session) ==
            EnrichedBefore(before, outcome) + AddedRow(outcome, st.turn.text, st.turn.saved)
  {
    if !outcome.Failed? {
      FinishAddsOneRow(before, st, session, outcome);
    }
  }

  // What the turn does not know: the row that its next save overwrites is the
  // reply.  The text it takes for saved decides nothing.
  function Believing(st: State, saved: string): State
    requires st.turn.saved.Some?
  {
    st.(turn := st.turn.(saved := Some(saved)))
  }

  lemma {:induction false} BeliefDecidesNothing(st: State, session: string, saved: string, events: seq<Event>)
    requires st.turn.saved.Some?
    ensures var (end, other) := (Run(st, session, events), Run(Believing(st, saved), session, events));
            && end.turn.saved.Some? && other.turn.saved.Some? && other == Believing(end, other.turn.saved.value)
            && other.turn.saved == if SaveDue(events, st.turn.lastSave) then end.turn.saved else Some(saved)
    decreases |events|
  {
    if events != [] {
      var st' := Step(st, session, events[0]);
      LaterChunks(events, st.turn.lastSave);
      if events[0].Chunk? && events[0].now - st.turn.lastSave >= SAVE_INTERVAL {
        assert Step(Believing(st, saved), session, events[0]) == st' == Believing(st', st'.turn.saved.value);
        SameBelief(st', session, events[1..]);
      } else {
        assert Step(Believing(st, saved), session, events[0]) == Believing(st', saved);
        BeliefDecidesNothing(st', session, saved, events[1..]);
      }
    }
  }

  lemma SameBelief(st: State, session: string, events: seq<Event>)
    requires st.turn.saved.Some?
    ensures var end := Run(st, session, events); end.turn.saved.Some? && end == Believing(end, end.turn.saved.value)
  {
    SavedIff(st, session, events);
  }

  lemma FinishIgnoresBelief(st: State, session: string, saved: string, outcome: Outcome)
    requires st.turn.saved.Some?
    ensures Finish(Believing(st, saved), session, outcome) == Finish(st, session, outcome)
  {
  }

  function Reply(session: string, reply: string): Event {
    Elsewhere(Append(session, Assistant(reply)))
  }

  // What a turn last writes over the row after its partial save, if anything.
  function LastWritten(outcome: Outcome, text: string, saved: Option<string>, due: bool): Option<string> {
    if !outcome.Failed? then FinalText(outcome, text) else if due then saved else None
  }

  // Another writer of the session appends a reply somewhere in the turn.  Before
  // the first partial save it stays, and the turn adds its row after it.  After
  // one, the partial row stays and the turn's later saves and its final row go
  // over the reply; a failed turn leaves it if no later chunk made a save due.
  lemma SecondWriterIsOverwritten(before: seq<Message>, st: State, session: string, reply: string, rest: seq<Event>, outcome: Outcome)
    requires WellFormed(st.store) && InFlight(before, st, session) && SingleWriter(session, rest)
    ensures var end := Run(Step(st, session, Reply(session, reply)), session, rest);
            var written := LastWritten(outcome, end.turn.text, end.turn.saved, SaveDue(rest, st.turn.lastSave));
            && end.turn.text == st.turn.text + Text(rest)
            && Transcript(Finish(end, session, outcome).rows, session) ==
               if st.turn.saved.None? then
                 EnrichedBefore(before + [Assistant(reply)], outcome) + AddedRow(outcome, end.turn.text, end.turn.saved)
               else
                 EnrichedBefore(before + SavedRow(st.turn.saved), outcome) +
                 [Assistant(if written.Some? then written.value else reply)]
  {
    var st1 := Step(st, session, Reply(session, reply));
    ReplyAppended(st.store, session, reply);
    RunText(st1, session, rest);
    assert before + [] == before && before + [Assistant(reply)] + [] == before + [Assistant(reply)];
    if st.turn.saved.None? {
      RunGrows(before + [Assistant(reply)], st1, session, rest);
      GrownEnds(before + [Assistant(reply)], Run(st1, session, rest), session, outcome);
    } else {
      var believed := Believing(st1, reply);
      BeliefDecidesNothing(st1, session, reply, rest);
      RunGrows(before + SavedRow(st.turn.saved), believed, session, rest);
      var end := Run(believed, session, rest);
      GrownEnds(before + SavedRow(st.turn.saved), end, session, outcome);
      FinishIgnoresBelief(Run(st1, session, rest), session, end.turn.saved.value, outcome);
    }
  }

  lemma {:induction false} ReplaceLastLength(ms: seq<Message>, role: string, content: string)
    ensures |ReplaceLast(ms, role, content)| == |ms|
  {
    if ms != [] {
      ReplaceLastLength(ms[..|ms| - 1], role, content);
    }
  }

  lemma EnrichedKeepsLength(before: seq<Message>, outcome: Outcome)
    ensures |EnrichedBefore(before, outcome)| == |before|
  {
    if outcome.Finished? && outcome.enriched.Some? {
      ReplaceLastLength(before, "user", outcome.enriched.value);
    }
  }

  // Even a failing turn takes the reply away, if one more chunk makes a save due.
  lemma FailedTurnOverwritesReply(before: seq<Message>, st: State, session: string, reply: string, delta: string, now: int)
    requires WellFormed(st.store) && InFlight(before, st, session)
    requires st.turn.saved.Some? && now - st.turn.lastSave >= SAVE_INTERVAL
    ensures var end := Run(st, session, [Reply(session, reply), Chunk(delta, now)]);
            Transcript(Finish(end, session, Failed).rows, session) ==
            before + SavedRow(st.turn.saved) + [Assistant(st.turn.text + delta)]
  {
    var (events, rest) := ([Reply(session, reply), Chunk(delta, now)], [Chunk(delta, now)]);
    var st1 := Step(st, session, events[0]);
    assert events[1..] == rest && rest[1..] == [];
    assert rest[0].Chunk? && SaveDue(rest, st.turn.lastSave);
    assert Run(st1, session, rest) == Step(st1, session, rest[0]);
    SecondWriterIsOverwritten(before, st, session, reply, rest, Failed);
  }

  // Exactly when the row of that reply still holds it after the turn: no partial
  // row was there, or nothing was written over it afterwards, or the same text.
  lemma ReplySurvivesIff(before: seq<Message>, st: State, session: string, reply: string, rest: seq<Event>, outcome: Outcome)
    requires WellFormed(st.store) && InFlight(before, st, session) && SingleWriter(session, rest)
    ensures var end := Run(Step(st, session, Reply(session, reply)), session, rest);
            var after := Transcript(Finish(end, session, outcome).rows, session);
            var row := |before + SavedRow(st.turn.saved)|;
            var written := LastWritten(outcome, end.turn.text, end.turn.saved, SaveDue(rest, st.turn.lastSave));
            && row < |after|
            && (after[row] == Assistant(reply) <==> st.turn.saved.None? || written.None? || written.value == reply)
  {
    SecondWriterIsOverwritten(before, st, session, reply, rest, outcome);
    EnrichedKeepsLast(before, Assistant(reply), outcome);
    EnrichedKeepsLength(before, outcome);
    EnrichedKeepsLength(before + SavedRow(st.turn.saved), outcome);
  }

  lemma EnrichedKeepsLast(before: seq<Message>, row: Message, outcome: Outcome)
    requires row.role == "assistant"
    ensures EnrichedBefore(before + [row], outcome) == EnrichedBefore(before, outcome) + [row]
  {
    if outcome.Finished? && outcome.enriched.Some? {
      EditsSnoc(before, row, "user", outcome.enriched.value);
    }
  }

  // ------------------------------------------------------------ the turn loop

  method Execute(store: SqliteSessionStore, op: Op)
    requires store.Valid()
    modifies store
    ensures store.Valid() && store.Abs() == Apply(old(store.Abs()), op)
  {
    match op
    case Append(session, m) => store.AppendMessage(session, m);
    case UpdateLast(session, m) => store.UpdateLastMessage(session, m);
    case UpdateLastUser(session, content) => store.UpdateLastUserMessage(session, content);
    case RemoveLastTurn(session) => var _ := store.RemoveLastAssistantTurn(session);
  }

  method ProcessChatMessage(store: SqliteSessionStore, session: string, events: seq<Event>, start: int, outcome: Outcome)
    requires store.Valid()
    modifies store
    ensures store.Valid()
    ensures store.Abs() == Finish(Run(Begin(old(store.Abs()), start), session, events), session, outcome)
  {
    var accumulatedText, partialSaved, lastPartialSave := "", false, start;
    ghost var saved: Option<string> := None;
    var i := 0;
    while i < |events|
      invariant 0 <= i <= |events| && store.Valid()
      invariant partialSaved <==> saved.Some?
      invariant Run(State(store.Abs(), Turn(accumulatedText, saved, lastPartialSave)), session, events[i..]) ==
                Run(Begin(old(store.Abs()), start), session, events)
    {
      assert events[i..][1..] == events[i + 1..];
      match events[i] {
        case Chunk(delta, now) =>
          accumulatedText := accumulatedText + delta;
          if now - lastPartialSave >= SAVE_INTERVAL {
            if partialSaved {
              store.UpdateLastMessage(session, Assistant(accumulatedText));
            } else {
              store.AppendMessage(session, Assistant(accumulatedText));
              partialSaved := true;
            }
            saved := Some(accumulatedText);
            lastPartialSave := now;
          }
        case Elsewhere(op) =>
          Execute(store, op);
      }
      i := i + 1;
    }
    var final := FinalText(outcome, accumulatedText);
    if final.None? {
      return;
    }
    if partialSaved {
      store.UpdateLastMessage(session, Assistant(final.value));
    } else {
      store.AppendMessage(session, Assistant(final.value));
    }
    if outcome.Finished? && outcome.enriched.Some? {
      store.UpdateLastUserMessage(session, outcome.enriched.value);
    }
  }
}
