// The messages table of the session store: rows in insertion order with
// increasing ids, shared by all sessions, and the transcript of one session as
// its abstraction.
module SessionStore {
  import opened Wrappers

  datatype Message = Message(role: string, content: string)

  datatype Row = Row(id: nat, session: string, message: Message)

  // `nextId` never goes back: ids of deleted rows are not used again.
  datatype Store = Store(rows: seq<Row>, nextId: nat)

  datatype Op =
    | Append(session: string, message: Message)
    | UpdateLast(session: string, message: Message)
    | UpdateLastUser(session: string, content: string)
    | RemoveLastTurn(session: string)

  ghost predicate Increasing(rows: seq<Row>) {
    forall i, j | 0 <= i < j < |rows| :: rows[i].id < rows[j].id
  }

  ghost predicate Below(rows: seq<Row>, bound: nat) {
    forall i | 0 <= i < |rows| :: rows[i].id < bound
  }

  ghost predicate WellFormed(s: Store) {
    Increasing(s.rows) && Below(s.rows, s.nextId)
  }

  predicate IsOf(r: Row, session: string, role: string) {
    r.session == session && r.message.role == role
  }

  // The row with the greatest id among those of a session and role.
  function LastRow(rows: seq<Row>, session: string, role: string): Option<Row> {
    if rows == [] then None
    else
      var last := rows[|rows| - 1];
      if IsOf(last, session, role) then Some(last) else LastRow(rows[..|rows| - 1], session, role)
  }

  function WithLast(rows: seq<Row>, session: string, role: string, content: string): seq<Row> {
    if rows == [] then []
    else
      var n := |rows| - 1;
      if IsOf(rows[n], session, role) then rows[..n] + [rows[n].(message := Message(role, content))]
      else WithLast(rows[..n], session, role, content) + [rows[n]]
  }

  function WithoutAfter(rows: seq<Row>, session: string, id: nat): seq<Row> {
    if rows == [] then []
    else
      var n := |rows| - 1;
      if rows[n].session == session && rows[n].id > id then WithoutAfter(rows[..n], session, id)
      else WithoutAfter(rows[..n], session, id) + [rows[n]]
  }

  function Apply(s: Store, op: Op): Store {
    match op
    case Append(session, m) => Store(s.rows + [Row(s.nextId, session, m)], s.nextId + 1)
    case UpdateLast(session, m) => s.(rows := WithLast(s.rows, session, m.role, m.content))
    case UpdateLastUser(session, content) => s.(rows := WithLast(s.rows, session, "user", content))
    case RemoveLastTurn(session) =>
      match LastRow(s.rows, session, "user")
      case None => s
      case Some(user) => s.(rows := WithoutAfter(s.rows, session, user.id))
  }

  // ----------------------------------------------------------- transcripts

  function Transcript(rows: seq<Row>, session: string): seq<Message> {
    if rows == [] then []
    else
      var n := |rows| - 1;
      if rows[n].session == session then Transcript(rows[..n], session) + [rows[n].message]
      else Transcript(rows[..n], session)
  }

  function ReplaceLast(ms: seq<Message>, role: string, content: string): seq<Message> {
    if ms == [] then []
    else
      var n := |ms| - 1;
      if ms[n].role == role then ms[..n] + [Message(role, content)]
      else ReplaceLast(ms[..n], role, content) + [ms[n]]
  }

  predicate HasRole(ms: seq<Message>, role: string) {
    exists i | 0 <= i < |ms| :: ms[i].role == role
  }

  // The transcript up to and including its last user message.
  function UpToUser(ms: seq<Message>): seq<Message> {
    if ms == [] || ms[|ms| - 1].role == "user" then ms else UpToUser(ms[..|ms| - 1])
  }

  // The operations as one session sees them.
  function Edit(ms: seq<Message>, op: Op): seq<Message> {
    match op
    case Append(_, m) => ms + [m]
    case UpdateLast(_, m) => ReplaceLast(ms, m.role, m.content)
    case UpdateLastUser(_, content) => ReplaceLast(ms, "user", content)
    case RemoveLastTurn(_) => if HasRole(ms, "user") then UpToUser(ms) else ms
  }

  // One more row, one more message: each definition peels off the last element.
  lemma TranscriptSnoc(rows: seq<Row>, r: Row, session: string)
    ensures Transcript(rows + [r], session) ==
            if r.session == session then Transcript(rows, session) + [r.message] else Transcript(rows, session)
  {
    assert (rows + [r])[..|rows|] == rows;
  }

  lemma EditsSnoc(ms: seq<Message>, m: Message, role: string, content: string)
    ensures ReplaceLast(ms + [m], role, content) ==
            if m.role == role then ms + [Message(role, content)] else ReplaceLast(ms, role, content) + [m]
    ensures UpToUser(ms + [m]) == if m.role == "user" then ms + [m] else UpToUser(ms)
    ensures HasRole(ms + [m], role) <==> m.role == role || HasRole(ms, role)
  {
    assert (ms + [m])[..|ms|] == ms;
    assert (ms + [m])[|ms|] == m;
    assert forall i | 0 <= i < |ms| :: (ms + [m])[i] == ms[i];
  }

  lemma {:induction false} WithLastEdits(rows: seq<Row>, session: string, role: string, content: string, other: string)
    ensures Transcript(WithLast(rows, session, role, content), other) ==
            if other == session then ReplaceLast(Transcript(rows, other), role, content) else Transcript(rows, other)
  {
    if rows != [] {
      var n := |rows| - 1;
      WithLastEdits(rows[..n], session, role, content, other);
      EditsSnoc(Transcript(rows[..n], other), rows[n].message, role, content);
      if IsOf(rows[n], session, role) {
        TranscriptSnoc(rows[..n], rows[n].(message := Message(role, content)), other);
      } else {
        TranscriptSnoc(WithLast(rows[..n], session, role, content), rows[n], other);
      }
    }
  }

  lemma {:induction false} LastRowIsLast(rows: seq<Row>, session: string, role: string)
    ensures LastRow(rows, session, role).Some? <==> HasRole(Transcript(rows, session), role)
    ensures LastRow(rows, session, role).Some? ==> LastRow(rows, session, role).value in rows
  {
    if rows != [] {
      var n := |rows| - 1;
      LastRowIsLast(rows[..n], session, role);
      EditsSnoc(Transcript(rows[..n], session), rows[n].message, role, "");
    }
  }

  lemma {:induction false} OthersKeepTheirRows(rows: seq<Row>, session: string, id: nat, other: string)
    requires other != session || Below(rows, id + 1)
    ensures Transcript(WithoutAfter(rows, session, id), other) == Transcript(rows, other)
  {
    if rows != [] {
      var n := |rows| - 1;
      OthersKeepTheirRows(rows[..n], session, id, other);
      TranscriptSnoc(WithoutAfter(rows[..n], session, id), rows[n], other);
    }
  }

  lemma {:induction false} RowsAfterUserGo(rows: seq<Row>, session: string, user: Row)
    requires Increasing(rows) && LastRow(rows, session, "user") == Some(user)
    ensures Transcript(WithoutAfter(rows, session, user.id), session) == UpToUser(Transcript(rows, session))
    ensures UpToUser(Transcript(rows, session)) != []
    ensures user.message.role == "user"
    ensures var ms := UpToUser(Transcript(rows, session)); ms[|ms| - 1] == user.message
  {
    var n := |rows| - 1;
    IncreasingSplits(rows, n);
    if IsOf(rows[n], session, "user") {
      OthersKeepTheirRows(rows, session, user.id, session);
      EndsWithUser(rows, session);
    } else {
      RowsAfterUserGo(rows[..n], session, user);
      LastRowIsLast(rows[..n], session, "user");
      BelowAt(rows[..n], rows[n].id, user);
      LaterRowGoes(rows, n, session, user.id);
    }
  }

  lemma IncreasingSplits(rows: seq<Row>, n: nat)
    requires Increasing(rows) && n + 1 == |rows|
    ensures Increasing(rows[..n]) && Below(rows[..n], rows[n].id) && Below(rows, rows[n].id + 1)
  {
  }

  lemma BelowAt(rows: seq<Row>, bound: nat, r: Row)
    requires Below(rows, bound) && r in rows
    ensures r.id < bound
  {
  }

  // A row after the last user row is deleted if it is of the session.
  lemma LaterRowGoes(rows: seq<Row>, n: nat, session: string, id: nat)
    requires n + 1 == |rows| && rows[n].id > id && !IsOf(rows[n], session, "user")
    ensures Transcript(WithoutAfter(rows, session, id), session) == Transcript(WithoutAfter(rows[..n], session, id), session)
    ensures UpToUser(Transcript(rows, session)) == UpToUser(Transcript(rows[..n], session))
  {
    if rows[n].session == session {
      EditsSnoc(Transcript(rows[..n], session), rows[n].message, "user", "");
    } else {
      TranscriptSnoc(WithoutAfter(rows[..n], session, id), rows[n], session);
    }
  }

  lemma EndsWithUser(rows: seq<Row>, session: string)
    requires rows != [] && IsOf(rows[|rows| - 1], session, "user")
    ensures var ms := Transcript(rows, session);
            ms != [] && UpToUser(ms) == ms && ms[|ms| - 1] == rows[|rows| - 1].message
  {
  }

  // Main result: on every table, an operation is exactly an edit of the
  // transcript of its session; every other transcript stays as it is.
  lemma OperationsAreEdits(s: Store, op: Op, session: string)
    requires WellFormed(s)
    ensures Transcript(Apply(s, op).rows, session) ==
            if session == op.session then Edit(Transcript(s.rows, session), op) else Transcript(s.rows, session)
  {
    match op
    case Append(k, m) =>
      TranscriptSnoc(s.rows, Row(s.nextId, k, m), session);
    case UpdateLast(k, m) => WithLastEdits(s.rows, k, m.role, m.content, session);
    case UpdateLastUser(k, content) => WithLastEdits(s.rows, k, "user", content, session);
    case RemoveLastTurn(k) =>
      LastRowIsLast(s.rows, k, "user");
      if LastRow(s.rows, k, "user").Some? {
        if session == k {
          RowsAfterUserGo(s.rows, k, LastRow(s.rows, k, "user").value);
        } else {
          OthersKeepTheirRows(s.rows, k, LastRow(s.rows, k, "user").value.id, session);
        }
      }
  }

  lemma {:induction false} WithLastKeepsIds(rows: seq<Row>, session: string, role: string, content: string)
    ensures |WithLast(rows, session, role, content)| == |rows|
    ensures forall i | 0 <= i < |rows| :: WithLast(rows, session, role, content)[i].id == rows[i].id
  {
    if rows != [] {
      WithLastKeepsIds(rows[..|rows| - 1], session, role, content);
    }
  }

  lemma {:induction false} WithoutAfterKeepsOrder(rows: seq<Row>, session: string, id: nat, bound: nat)
    requires Increasing(rows) && Below(rows, bound)
    ensures WellFormed(Store(WithoutAfter(rows, session, id), bound))
  {
    if rows != [] {
      var n := |rows| - 1;
      WithoutAfterKeepsOrder(rows[..n], session, id, rows[n].id);
    }
  }

  lemma ApplyKeepsWellFormed(s: Store, op: Op)
    requires WellFormed(s)
    ensures WellFormed(Apply(s, op))
  {
    match op
    case Append(_, _) =>
    case UpdateLast(k, m) => WithLastKeepsIds(s.rows, k, m.role, m.content);
    case UpdateLastUser(k, content) => WithLastKeepsIds(s.rows, k, "user", content);
    case RemoveLastTurn(k) =>
      if LastRow(s.rows, k, "user").Some? {
        WithoutAfterKeepsOrder(s.rows, k, LastRow(s.rows, k, "user").value.id, s.nextId);
      }
  }

  // The update hits the element a scan from the end finds, if it finds one.
  lemma {:induction false} WithLastFound(rows: seq<Row>, session: string, role: string, content: string, n: nat)
    requires n <= |rows| && (n > 0 ==> IsOf(rows[n - 1], session, role))
    requires forall i | n <= i < |rows| :: !IsOf(rows[i], session, role)
    ensures WithLast(rows, session, role, content) ==
            if n == 0 then rows else rows[n - 1 := rows[n - 1].(message := Message(role, content))]
    decreases |rows|
  {
    if rows != [] && n < |rows| {
      WithLastFound(rows[..|rows| - 1], session, role, content, n);
    }
  }

  // ------------------------------------------------- operations by position

  // `n` is where the last message of the role ends, 0 if there is none.
  predicate Newest(ms: seq<Message>, role: string, n: nat) {
    && n <= |ms| && (n > 0 ==> ms[n - 1].role == role)
    && forall i | n <= i < |ms| :: ms[i].role != role
  }

  lemma {:induction false} ReplacedAt(ms: seq<Message>, role: string, content: string, n: nat)
    requires Newest(ms, role, n)
    ensures ReplaceLast(ms, role, content) == if n == 0 then ms else ms[n - 1 := Message(role, content)]
    decreases |ms|
  {
    if n < |ms| {
      ReplacedAt(ms[..|ms| - 1], role, content, n);
    }
  }

  lemma {:induction false} CutAt(ms: seq<Message>, n: nat)
    requires Newest(ms, "user", n) && n > 0
    ensures UpToUser(ms) == ms[..n]
    decreases |ms|
  {
    if n < |ms| {
      CutAt(ms[..|ms| - 1], n);
      assert ms[..|ms| - 1][..n] == ms[..n];
    } else {
      assert ms[..n] == ms;
    }
  }

  // What a session's transcript is after each operation on it.
  lemma AppendedAtEnd(s: Store, session: string, m: Message)
    requires WellFormed(s)
    ensures Transcript(Apply(s, Append(session, m)).rows, session) == Transcript(s.rows, session) + [m]
  {
    OperationsAreEdits(s, Append(session, m), session);
  }

  lemma UpdatedAt(s: Store, session: string, m: Message, n: nat)
    requires WellFormed(s) && Newest(Transcript(s.rows, session), m.role, n)
    ensures var before := Transcript(s.rows, session);
            Transcript(Apply(s, UpdateLast(session, m)).rows, session) == if n == 0 then before else before[n - 1 := m]
  {
    OperationsAreEdits(s, UpdateLast(session, m), session);
    ReplacedAt(Transcript(s.rows, session), m.role, m.content, n);
  }

  lemma UserUpdatedAt(s: Store, session: string, content: string, n: nat)
    requires WellFormed(s) && Newest(Transcript(s.rows, session), "user", n)
    ensures var before := Transcript(s.rows, session);
            Transcript(Apply(s, UpdateLastUser(session, content)).rows, session) ==
            if n == 0 then before else before[n - 1 := Message("user", content)]
  {
    OperationsAreEdits(s, UpdateLastUser(session, content), session);
    ReplacedAt(Transcript(s.rows, session), "user", content, n);
  }

  lemma TurnRemovedAfter(s: Store, session: string, n: nat)
    requires WellFormed(s) && Newest(Transcript(s.rows, session), "user", n)
    ensures var before := Transcript(s.rows, session);
            Transcript(Apply(s, RemoveLastTurn(session)).rows, session) == if n == 0 then before else before[..n]
  {
    var before := Transcript(s.rows, session);
    OperationsAreEdits(s, RemoveLastTurn(session), session);
    if n > 0 {
      assert before[n - 1].role == "user";
      CutAt(before, n);
    }
  }

  // ------------------------------------------------------ the table in place

  class SqliteSessionStore {
    var rows: seq<Row>
    var nextId: nat

    ghost function Abs(): Store
      reads this
    {
      Store(rows, nextId)
    }

    ghost predicate Valid()
      reads this
    {
      WellFormed(Abs())
    }

    constructor ()
      ensures Valid() && Abs() == Store([], 1)
    {
      rows, nextId := [], 1;
    }

    method AppendMessage(session: string, m: Message)
      requires Valid()
      modifies this
      ensures Valid() && Abs() == Apply(old(Abs()), Append(session, m))
    {
      ApplyKeepsWellFormed(Abs(), Append(session, m));
      rows := rows + [Row(nextId, session, m)];
      nextId := nextId + 1;
    }

    // The UPDATE on the row with the greatest id, found from the end.
    method UpdateNewest(session: string, role: string, content: string)
      requires Valid()
      modifies this`rows
      ensures Valid() && rows == WithLast(old(rows), session, role, content)
    {
      WithLastKeepsIds(rows, session, role, content);
      var n: nat := |rows|;
      while n > 0 && !IsOf(rows[n - 1], session, role)
        invariant n <= |rows|
        invariant forall i | n <= i < |rows| :: !IsOf(rows[i], session, role)
      {
        n := n - 1;
      }
      WithLastFound(rows, session, role, content, n);
      if n > 0 {
        rows := rows[n - 1 := rows[n - 1].(message := Message(role, content))];
      }
    }

    method UpdateLastMessage(session: string, m: Message)
      requires Valid()
      modifies this`rows
      ensures Valid() && Abs() == Apply(old(Abs()), UpdateLast(session, m))
    {
      UpdateNewest(session, m.role, m.content);
    }

    method UpdateLastUserMessage(session: string, content: string)
      requires Valid()
      modifies this`rows
      ensures Valid() && Abs() == Apply(old(Abs()), UpdateLastUser(session, content))
    {
      UpdateNewest(session, "user", content);
    }

    method RemoveLastAssistantTurn(session: string) returns (user: Option<string>)
      requires Valid()
      modifies this`rows
      ensures Valid() && Abs() == Apply(old(Abs()), RemoveLastTurn(session))
      ensures user.Some? <==> HasRole(Transcript(old(rows), session), "user")
      ensures user.Some? ==>
                var ms := Transcript(rows, session);
                ms != [] && ms[|ms| - 1] == Message("user", user.value)
    {
      ApplyKeepsWellFormed(Abs(), RemoveLastTurn(session));
      OperationsAreEdits(Abs(), RemoveLastTurn(session), session);
      LastRowIsLast(rows, session, "user");
      var last := LastRow(rows, session, "user");
      if last.None? {
        return None;
      }
      RowsAfterUserGo(rows, session, last.value);
      user := Some(last.value.message.content);
      var kept, i := [], 0;
      while i < |rows|
        invariant 0 <= i <= |rows| && kept == WithoutAfter(rows[..i], session, last.value.id)
      {
        assert rows[..i + 1][..i] == rows[..i];
        if rows[i].session != session || rows[i].id <= last.value.id {
          kept := kept + [rows[i]];
        }
        i := i + 1;
      }
      assert rows[..i] == rows;
      rows := kept;
    }
  }
}
