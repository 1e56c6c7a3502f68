// The text-removal loops of `parse_tool_calls`: think blocks, `TOOL_CALL`
// blocks, and the `<FunctionCall>` loop, which does not always stop.
module TextCleanup {
  import opened Wrappers
  import opened Text
  import opened TagLoop
  import opened TagRoundTrip

  // The text without what lies between `start` and `end`.
  function Cut(s: string, start: nat, end: nat): string
    requires start <= |s| && end <= |s|
  {
    s[..start] + s[end..]
  }

  // ------------------------------------------------------------ think blocks

  const THINK := "<think>"
  const END_THINK := "</think>"

  // Text kept by one pass, and where to go on, if anywhere.
  datatype Kept = Last(text: string) | More(text: string, rest: string)

  function ThinkTurn(rest: string): (k: Kept)
    ensures k.More? ==> |k.rest| < |rest|
  {
    match Find(rest, THINK)
    case None => Last(rest)
    case Some(start) =>
      match Find(rest[start..], END_THINK)
      case None => Last(rest[..start])
      case Some(end) => More(rest[..start], rest[start + end + |END_THINK|..])
  }

  ghost predicate Advances(turn: string -> Kept) {
    forall s :: turn(s).More? ==> |turn(s).rest| < |s|
  }

  ghost function KeepAll(turn: string -> Kept, rest: string): string
    requires Advances(turn)
    decreases |rest|
  {
    match turn(rest)
    case Last(text) => text
    case More(text, after) => text + KeepAll(turn, after)
  }

  function ThinkTurns(): (turn: string -> Kept)
    ensures Advances(turn)
  {
    s => ThinkTurn(s)
  }

  ghost function StripThink(rest: string): string {
    KeepAll(ThinkTurns(), rest)
  }

  method CollectKept(turn: string -> Kept, s: string) returns (result: string)
    requires Advances(turn)
    ensures result == KeepAll(turn, s)
  {
    result := "";
    var rest := s;
    while true
      invariant result + KeepAll(turn, rest) == KeepAll(turn, s)
      decreases |rest|
    {
      match turn(rest)
      case Last(text) =>
        result := result + text;
        return;
      case More(text, after) =>
        Associative(result, text, KeepAll(turn, after));
        result, rest := result + text, after;
    }
  }

  method StripThinkTags(s: string) returns (text: string)
    ensures text == Trim(StripThink(s))
  {
    var kept := CollectKept(ThinkTurns(), s);
    text := Trim(kept);
  }

  // A think block and the text after it.
  datatype Thought = Thought(body: string, after: string)

  predicate PrintableThought(t: Thought) {
    !Contains(t.body, END_THINK) && !Contains(t.after, THINK)
  }

  function PrintThoughts(first: string, thoughts: seq<Thought>): string
    decreases thoughts
  {
    if thoughts == [] then first
    else first + (THINK + (thoughts[0].body + (END_THINK + PrintThoughts(thoughts[0].after, thoughts[1..]))))
  }

  function Visible(first: string, thoughts: seq<Thought>): string
    decreases thoughts
  {
    if thoughts == [] then first else first + Visible(thoughts[0].after, thoughts[1..])
  }

  lemma ThinkTags()
    ensures IsTag(THINK) && IsTag(END_THINK)
  {
  }

  lemma EndThinkAfterThink(body: string, rest: string)
    requires !Contains(body, END_THINK)
    ensures Find(THINK + (body + (END_THINK + rest)), END_THINK) == Some(|THINK| + |body|)
  {
    ThinkTags();
    var a := THINK + body;
    forall i: nat
      ensures !OccursAt(a, END_THINK, i)
    {
      if |THINK| <= i && i + |END_THINK| <= |a| {
        assert a[i..i + |END_THINK|] == body[i - |THINK|..i - |THINK| + |END_THINK|];
        assert !OccursAt(body, END_THINK, i - |THINK|);
      } else if i + |END_THINK| <= |a| {
        assert a[i..i + |END_THINK|][0] == THINK[i];
        assert a[1] == 't';
      }
    }
    FirstIsHere(a, END_THINK, rest);
    Associative(THINK, body, END_THINK + rest);
  }

  // Exactly the text outside the printed think blocks survives.
  lemma {:induction false} StripKeepsVisible(first: string, thoughts: seq<Thought>)
    requires !Contains(first, THINK) && forall i | 0 <= i < |thoughts| :: PrintableThought(thoughts[i])
    ensures StripThink(PrintThoughts(first, thoughts)) == Visible(first, thoughts)
    decreases thoughts
  {
    if thoughts == [] {
      StripNothing(first);
    } else {
      var t := thoughts[0];
      var rest := PrintThoughts(t.after, thoughts[1..]);
      StripKeepsVisible(t.after, thoughts[1..]);
      StripOne(first, t, rest);
    }
  }

  lemma StripOne(first: string, t: Thought, rest: string)
    requires !Contains(first, THINK) && PrintableThought(t)
    ensures StripThink(first + (THINK + (t.body + (END_THINK + rest)))) == first + StripThink(rest)
  {
    ThoughtTurn(first, t, rest);
    KeepMore(ThinkTurns(), first + (THINK + (t.body + (END_THINK + rest))), first, rest);
  }

  lemma KeepMore(turn: string -> Kept, s: string, text: string, rest: string)
    requires Advances(turn) && turn(s) == More(text, rest)
    ensures KeepAll(turn, s) == text + KeepAll(turn, rest)
  {
  }

  lemma ThoughtTurn(first: string, t: Thought, rest: string)
    requires !Contains(first, THINK) && PrintableThought(t)
    ensures ThinkTurn(first + (THINK + (t.body + (END_THINK + rest)))) == More(first, rest)
  {
    ThinkTags();
    var tail := t.body + (END_THINK + rest);
    FirstIsHere(first, THINK, tail);
    Halves(first, THINK + tail);
    EndThinkAfterThink(t.body, rest);
    DropBlock(first, THINK, t.body, END_THINK, rest);
  }

  lemma EndlessThought(first: string, tail: string)
    requires !Contains(first, THINK) && !Contains(tail, END_THINK)
    ensures StripThink(first + (THINK + tail)) == first
  {
    var s := first + (THINK + tail);
    ThinkTags();
    FirstIsHere(first, THINK, tail);
    Halves(first, THINK + tail);
    NoEndAfterThink(tail);
    assert ThinkTurn(s) == Last(first);
  }

  lemma NoEndAfterThink(tail: string)
    requires !Contains(tail, END_THINK)
    ensures Find(THINK + tail, END_THINK) == None
  {
    var a := THINK + tail;
    forall i: nat
      ensures !OccursAt(a, END_THINK, i)
    {
      if |THINK| <= i && i + |END_THINK| <= |a| {
        assert a[i..i + |END_THINK|] == tail[i - |THINK|..i - |THINK| + |END_THINK|];
        assert !OccursAt(tail, END_THINK, i - |THINK|);
      } else if i == 0 {
        assert a[1] == 't' && END_THINK[1] == '/';
        Mismatch(a, END_THINK, i, 1);
      } else if i < |THINK| {
        assert a[i] == THINK[i] != '<';
        Mismatch(a, END_THINK, i, 0);
      }
    }
  }

  // A block that is not closed takes the rest of the text and nothing before it.
  lemma {:induction false} UnclosedThoughtKeepsFront(first: string, thoughts: seq<Thought>, tail: string)
    requires !Contains(first, "<think>") && !Contains(tail, "</think>")
    requires forall i | 0 <= i < |thoughts| :: PrintableThought(thoughts[i])
    ensures StripThink(PrintThoughts(first, thoughts) + ("<think>" + tail)) == Visible(first, thoughts)
    decreases thoughts
  {
    if thoughts == [] {
      EndlessThought(first, tail);
    } else {
      var t := thoughts[0];
      var rest := PrintThoughts(t.after, thoughts[1..]);
      UnclosedThoughtKeepsFront(t.after, thoughts[1..], tail);
      Regrouped(first, THINK, t.body, END_THINK, rest, THINK + tail);
      StripOne(first, t, rest + (THINK + tail));
    }
  }

  lemma Regrouped(a: string, b: string, c: string, d: string, e: string, f: string)
    ensures (a + (b + (c + (d + e)))) + f == a + (b + (c + (d + (e + f))))
  {
    Associative(d, e, f);
    Associative(c, d + e, f);
    Associative(b, c + (d + e), f);
    Associative(a, b + (c + (d + e)), f);
  }

  lemma StripNothing(text: string)
    requires !Contains(text, THINK)
    ensures StripThink(text) == text
  {
    assert ThinkTurn(text) == Last(text);
  }

  lemma DropBlock(a: string, b: string, c: string, d: string, rest: string)
    ensures |a + (b + (c + (d + rest)))| == |a| + |b| + |c| + |d| + |rest|
    ensures (a + (b + (c + (d + rest))))[|a| + (|b| + |c|) + |d|..] == rest
  {
  }

  // Removal is a single pass: a block cut out of the middle of a tag can leave
  // a complete opening tag behind.
  lemma StripMayLeaveTag()
    ensures StripThink("<th" + (THINK + ("" + (END_THINK + "ink>")))) == THINK
  {
    StripOne("<th", Thought("", "ink>"), "ink>");
    StripNothing("ink>");
    assert "<th" + "ink>" == THINK;
  }

  // The pieces between the think blocks, in order.
  ghost function Pieces(turn: string -> Kept, rest: string): seq<string>
    requires Advances(turn)
    decreases |rest|
  {
    match turn(rest)
    case Last(text) => [text]
    case More(text, after) => [text] + Pieces(turn, after)
  }

  function Join(pieces: seq<string>): string {
    if pieces == [] then "" else pieces[0] + Join(pieces[1..])
  }

  lemma {:induction false} PiecesJoin(turn: string -> Kept, rest: string)
    requires Advances(turn)
    ensures Join(Pieces(turn, rest)) == KeepAll(turn, rest)
    decreases |rest|
  {
    match turn(rest)
    case Last(text) => assert text + "" == text;
    case More(text, after) =>
      PiecesJoin(turn, after);
      assert ([text] + Pieces(turn, after))[1..] == Pieces(turn, after);
  }

  predicate NoneContains(pieces: seq<string>, tag: string) {
    forall i | 0 <= i < |pieces| :: !Contains(pieces[i], tag)
  }

  lemma BeforeFirst(s: string, tag: string, start: nat)
    requires Find(s, tag) == Some(start) && tag != ""
    ensures !Contains(s[..start], tag)
  {
    forall i: nat
      ensures !OccursAt(s[..start], tag, i)
    {
      if i + |tag| <= start {
        assert s[..start][i..i + |tag|] == s[i..i + |tag|];
        assert !OccursAt(s, tag, i);
      }
    }
  }

  lemma {:induction false} PiecesAreClean(rest: string)
    ensures NoneContains(Pieces(ThinkTurns(), rest), THINK)
    decreases |rest|
  {
    var found := Find(rest, THINK);
    if found.Some? {
      BeforeFirst(rest, THINK, found.value);
    }
    match ThinkTurn(rest)
    case Last(_) =>
    case More(_, after) => PiecesAreClean(after);
  }

  // The pieces, read on from their start, begin with `t`.
  predicate Spells(pieces: seq<string>, t: string)
    decreases |pieces|
  {
    t == "" ||
    (pieces != [] &&
     if |t| <= |pieces[0]| then t <= pieces[0] else pieces[0] <= t && Spells(pieces[1..], t[|pieces[0]|..]))
  }

  // Some piece ends with a part of the tag and the pieces after it go on with
  // the rest.
  predicate Straddles(pieces: seq<string>, tag: string)
    decreases |pieces|
  {
    pieces != [] &&
    ((exists n | 0 < n < |tag| && n <= |pieces[0]| ::
        pieces[0][|pieces[0]| - n..] == tag[..n] && Spells(pieces[1..], tag[n..])) ||
     Straddles(pieces[1..], tag))
  }

  lemma {:induction false} SpellsIff(pieces: seq<string>, t: string)
    ensures Spells(pieces, t) <==> t <= Join(pieces)
    decreases |pieces|
  {
    if pieces != [] {
      var (a, b) := (pieces[0], Join(pieces[1..]));
      if |t| <= |a| {
        assert (a + b)[..|t|] == a[..|t|];
      } else {
        SpellsIff(pieces[1..], t[|a|..]);
        PrefixOfConcat(a, b, t);
      }
    }
  }

  lemma PrefixOfConcat(a: string, b: string, t: string)
    requires |t| > |a|
    ensures t <= a + b <==> a <= t && t[|a|..] <= b
  {
    if t <= a + b {
      assert t[..|a|] == (a + b)[..|a|] == a;
      assert t[|a|..] == b[..|t| - |a|];
    }
  }

  // Where a tag can occur in two texts put together.
  lemma OccursInConcat(a: string, b: string, tag: string, i: nat)
    requires tag != ""
    ensures OccursAt(a + b, tag, i) <==>
            if i >= |a| then OccursAt(b, tag, i - |a|)
            else if i + |tag| <= |a| then OccursAt(a, tag, i)
            else a[i..] == tag[..|a| - i] && tag[|a| - i..] <= b
  {
    var s := a + b;
    if i >= |a| {
      if i + |tag| <= |s| {
        assert s[i..i + |tag|] == b[i - |a|..i - |a| + |tag|];
      }
    } else if i + |tag| <= |a| {
      assert s[i..i + |tag|] == a[i..i + |tag|];
    } else if i + |tag| <= |s| {
      var n := |a| - i;
      assert s[i..i + |tag|] == a[i..] + b[..|tag| - n];
      assert tag == tag[..n] + tag[n..];
    }
  }

  lemma {:induction false} StraddlesIff(pieces: seq<string>, tag: string)
    requires NoneContains(pieces, tag) && tag != ""
    ensures Contains(Join(pieces), tag) <==> Straddles(pieces, tag)
    decreases |pieces|
  {
    if pieces != [] {
      var (a, rest) := (pieces[0], pieces[1..]);
      var s := a + Join(rest);
      assert NoneContains(rest, tag);
      StraddlesIff(rest, tag);
      forall i: nat
        ensures OccursAt(s, tag, i) <==>
                if i >= |a| then OccursAt(Join(rest), tag, i - |a|)
                else i + |tag| > |a| && a[i..] == tag[..|a| - i] && Spells(rest, tag[|a| - i..])
      {
        OccursInConcat(a, Join(rest), tag, i);
        if i < |a| < i + |tag| {
          SpellsIff(rest, tag[|a| - i..]);
        }
      }
      if Contains(s, tag) {
        var i := Find(s, tag).value;
        if i < |a| {
          assert a[|a| - (|a| - i)..] == tag[..|a| - i];
        }
      }
      if Straddles(pieces, tag) {
        if Contains(Join(rest), tag) {
          assert OccursAt(s, tag, |a| + Find(Join(rest), tag).value);
        } else {
          var n :| 0 < n < |tag| && n <= |a| && a[|a| - n..] == tag[..n] && Spells(rest, tag[n..]);
          assert OccursAt(s, tag, |a| - n);
        }
      }
    }
  }

  predicate HasNoBlank(tag: string) {
    tag != "" && forall i | 0 <= i < |tag| :: !IsWhitespace(tag[i])
  }

  lemma {:induction false} TrimStartKeepsTag(s: string, tag: string)
    requires HasNoBlank(tag)
    ensures Contains(TrimStart(s), tag) <==> Contains(s, tag)
  {
    if s != [] && IsWhitespace(s[0]) {
      TrimStartKeepsTag(s[1..], tag);
      assert s == [s[0]] + s[1..];
      BlankAtStart(s[0], s[1..], tag);
    }
  }

  lemma BlankAtStart(first: char, a: string, tag: string)
    requires HasNoBlank(tag) && IsWhitespace(first)
    ensures Contains([first] + a, tag) <==> Contains(a, tag)
  {
    forall i: nat
      ensures OccursAt([first] + a, tag, i) <==> i > 0 && OccursAt(a, tag, i - 1)
    {
      NotFromBlank(first, a, tag, i);
    }
    if Contains(a, tag) {
      assert OccursAt([first] + a, tag, Find(a, tag).value + 1);
    }
  }

  lemma NotFromBlank(first: char, a: string, tag: string, i: nat)
    requires HasNoBlank(tag) && IsWhitespace(first)
    ensures OccursAt([first] + a, tag, i) <==> i > 0 && OccursAt(a, tag, i - 1)
  {
    var s := [first] + a;
    if i > 0 && i + |tag| <= |s| {
      assert s[i..i + |tag|] == a[i - 1..i - 1 + |tag|];
    } else if i == 0 && |tag| <= |s| {
      assert s[..|tag|][0] == first;
    }
  }

  lemma {:induction false} TrimEndKeepsTag(s: string, tag: string)
    requires HasNoBlank(tag)
    ensures Contains(TrimEnd(s), tag) <==> Contains(s, tag)
    decreases |s|
  {
    if s != [] && IsWhitespace(s[|s| - 1]) {
      var (a, last) := (s[..|s| - 1], s[|s| - 1]);
      TrimEndKeepsTag(a, tag);
      assert s == a + [last];
      BlankAtEnd(a, last, tag);
    }
  }

  lemma BlankAtEnd(a: string, last: char, tag: string)
    requires HasNoBlank(tag) && IsWhitespace(last)
    ensures Contains(a + [last], tag) <==> Contains(a, tag)
  {
    forall i: nat
      ensures OccursAt(a + [last], tag, i) <==> OccursAt(a, tag, i)
    {
      NotAcrossBlank(a, last, tag, i);
    }
    if Contains(a, tag) {
      assert OccursAt(a + [last], tag, Find(a, tag).value);
    }
  }

  lemma NotAcrossBlank(a: string, last: char, tag: string, i: nat)
    requires HasNoBlank(tag) && IsWhitespace(last)
    ensures OccursAt(a + [last], tag, i) <==> OccursAt(a, tag, i)
  {
    var s := a + [last];
    if i + |tag| <= |a| {
      assert s[i..i + |tag|] == a[i..i + |tag|];
    } else if i + |tag| == |s| {
      assert s[i..i + |tag|][|tag| - 1] == last;
    }
  }

  // Exactly when a complete opening tag is left: the pieces around the removed
  // blocks, none of which holds one, spell one across a block.
  lemma OpeningTagLeftIff(s: string)
    ensures Contains(Trim(StripThink(s)), THINK) <==> Straddles(Pieces(ThinkTurns(), s), THINK)
  {
    PiecesJoin(ThinkTurns(), s);
    PiecesAreClean(s);
    StraddlesIff(Pieces(ThinkTurns(), s), THINK);
    TrimStartKeepsTag(StripThink(s), THINK);
    TrimEndKeepsTag(TrimStart(StripThink(s)), THINK);
  }

  // -------------------------------------------------------- TOOL_CALL blocks

  const TOOL_CALL := "TOOL_CALL"
  const END_TOOL_CALL := "/TOOL_CALL"

  // The opener is the closer without its first character, so an opener is found
  // at most one position after the closer starts.
  lemma OpenerBeforeCloser(s: string, end: nat)
    requires Find(s, END_TOOL_CALL) == Some(end)
    ensures Find(s, TOOL_CALL).Some? && Find(s, TOOL_CALL).value <= end + 1
  {
    assert s[end + 1..end + 1 + |TOOL_CALL|] == s[end..end + |END_TOOL_CALL|][1..] == TOOL_CALL;
    assert OccursAt(s, TOOL_CALL, end + 1);
  }

  // One pass of the loop, if it does not stop.
  function ToolCallStep(s: string): (r: Option<string>)
    ensures r.Some? ==> |r.value| + 9 <= |s|
    ensures r.None? <==> !Contains(s, END_TOOL_CALL)
  {
    match Find(s, TOOL_CALL)
    case None =>
      assert !Contains(s, END_TOOL_CALL) by {
        if Contains(s, END_TOOL_CALL) { OpenerBeforeCloser(s, Find(s, END_TOOL_CALL).value); }
      }
      None
    case Some(start) =>
      match Find(s, END_TOOL_CALL)
      case None => None
      case Some(end) =>
        OpenerBeforeCloser(s, end);
        Some(Cut(s, start, end + |END_TOOL_CALL|))
  }

  lemma OpenerIsHere(first: string, rest: string)
    requires !Contains(first, TOOL_CALL)
    ensures Find(first + (TOOL_CALL + rest), TOOL_CALL) == Some(|first|)
  {
    var s := first + (TOOL_CALL + rest);
    forall i: nat | i < |first|
      ensures !OccursAt(s, TOOL_CALL, i)
    {
      if i + |TOOL_CALL| <= |first| {
        OccursInFront(first, TOOL_CALL + rest, |first|, TOOL_CALL, i);
        assert first[..|first|] == first;
      } else {
        assert s[|first|] == 'T' && forall k | 1 <= k < 9 :: TOOL_CALL[k] != 'T';
        Mismatch(s, TOOL_CALL, i, |first| - i);
      }
    }
    assert s[|first|..|first| + |TOOL_CALL|] == TOOL_CALL;
    FindIs(s, TOOL_CALL, |first|);
  }

  // The first "/" at which a closer can start is that of the closer.
  lemma CloserIsHere(first: string, body: string, after: string)
    requires !Contains(first, TOOL_CALL) && (first != "" ==> first[|first| - 1] != '/') && !Contains(body, END_TOOL_CALL)
    ensures Find(first + (TOOL_CALL + (body + (END_TOOL_CALL + after))), END_TOOL_CALL) == Some(|first| + |TOOL_CALL| + |body|)
  {
    var at := |first| + |TOOL_CALL| + |body|;
    var s := first + (TOOL_CALL + (body + (END_TOOL_CALL + after)));
    OpenerIsHere(first, body + (END_TOOL_CALL + after));
    forall i: nat | i < at
      ensures !OccursAt(s, END_TOOL_CALL, i)
    {
      NoEarlierCloser(first, body, after, s, i);
    }
    assert s[at..at + |END_TOOL_CALL|] == END_TOOL_CALL;
    FindIs(s, END_TOOL_CALL, at);
  }

  lemma CloserHoldsOpener(s: string, i: nat)
    ensures OccursAt(s, END_TOOL_CALL, i) ==> OccursAt(s, TOOL_CALL, i + 1)
  {
    if OccursAt(s, END_TOOL_CALL, i) {
      assert s[i + 1..i + 1 + |TOOL_CALL|] == s[i..i + |END_TOOL_CALL|][1..] == TOOL_CALL;
    }
  }

  lemma NoEarlierCloser(first: string, body: string, after: string, s: string, i: nat)
    requires s == first + (TOOL_CALL + (body + (END_TOOL_CALL + after))) && i < |first| + |TOOL_CALL| + |body|
    requires Find(s, TOOL_CALL) == Some(|first|) && (first != "" ==> first[|first| - 1] != '/') && !Contains(body, END_TOOL_CALL)
    ensures !OccursAt(s, END_TOOL_CALL, i)
  {
    var start := |first| + |TOOL_CALL|;
    assert END_TOOL_CALL[0] == '/' && forall k | 1 <= k < 10 :: END_TOOL_CALL[k] != '/';
    if i + 1 < |first| {
      CloserHoldsOpener(s, i);
    } else if i < start {
      assert forall k | 0 <= k < 9 :: TOOL_CALL[k] != '/';
      assert i < |first| ==> s[i] == first[|first| - 1];
      assert i >= |first| ==> s[i] == TOOL_CALL[i - |first|];
      Mismatch(s, END_TOOL_CALL, i, 0);
    } else if i + |END_TOOL_CALL| <= start + |body| {
      assert s[i..i + |END_TOOL_CALL|] == body[i - start..i - start + |END_TOOL_CALL|];
      assert !OccursAt(body, END_TOOL_CALL, i - start);
    } else {
      assert s[start + |body|] == '/';
      Mismatch(s, END_TOOL_CALL, i, start + |body| - i);
    }
  }

  // A pass takes out the first block and nothing else.
  lemma FirstToolCallGoes(first: string, body: string, after: string)
    requires !Contains(first, "TOOL_CALL") && (first != "" ==> first[|first| - 1] != '/') && !Contains(body, "/TOOL_CALL")
    ensures ToolCallStep(first + ("TOOL_CALL" + (body + ("/TOOL_CALL" + after)))) == Some(first + after)
  {
    var s := first + (TOOL_CALL + (body + (END_TOOL_CALL + after)));
    OpenerIsHere(first, body + (END_TOOL_CALL + after));
    CloserIsHere(first, body, after);
    Halves(first, TOOL_CALL + (body + (END_TOOL_CALL + after)));
    DropBlock(first, TOOL_CALL, body, END_TOOL_CALL, after);
  }

  // Number of passes the loop makes.
  function ToolCallPasses(s: string): nat
    decreases |s|
  {
    match ToolCallStep(s)
    case None => 0
    case Some(next) => 1 + ToolCallPasses(next)
  }

  // `n` passes, one after the other.
  function AfterPasses(step: string -> Option<string>, s: string, n: nat): Option<string>
    decreases n
  {
    if n == 0 then Some(s)
    else if step(s).Some? then AfterPasses(step, step(s).value, n - 1)
    else None
  }

  function ToolCallLoop(): string -> Option<string> {
    s => ToolCallStep(s)
  }

  // Without a closer nothing is touched.
  lemma NothingToRemove(text: string)
    requires !Contains(text, "/TOOL_CALL")
    ensures AfterPasses(ToolCallLoop(), text, ToolCallPasses(text)) == Some(text)
  {
  }

  // The loop stops on every text, within a ninth of its length, with what that
  // many passes leave and no closer in it.
  method RemoveToolCallBlocks(text: string) returns (cleaned: string)
    ensures AfterPasses(ToolCallLoop(), text, ToolCallPasses(text)) == Some(cleaned)
    ensures !Contains(cleaned, END_TOOL_CALL)
    ensures |cleaned| + 9 * ToolCallPasses(text) <= |text|
  {
    cleaned := text;
    ghost var passes := 0;
    while true
      invariant passes + ToolCallPasses(cleaned) == ToolCallPasses(text)
      invariant AfterPasses(ToolCallLoop(), text, ToolCallPasses(text)) ==
                AfterPasses(ToolCallLoop(), cleaned, ToolCallPasses(cleaned))
      invariant |cleaned| + 9 * passes <= |text|
      decreases |cleaned|
    {
      ghost var step := ToolCallStep(cleaned);
      var start := Find(cleaned, TOOL_CALL);
      if start.None? {
        break;
      }
      var end := Find(cleaned, END_TOOL_CALL);
      if end.None? {
        break;
      }
      var endPos := end.value + |END_TOOL_CALL|;
      cleaned := Cut(cleaned, start.value, endPos);
      passes := passes + 1;
    }
  }

  // ----------------------------------------------------- FunctionCall blocks

  const FUNCTION_CALL := "<FunctionCall>"
  const END_FUNCTION_CALL := "</FunctionCall>"

  function FunctionCallStep(s: string): Option<string> {
    match Find(s, FUNCTION_CALL)
    case None => None
    case Some(start) =>
      match Find(s, END_FUNCTION_CALL)
      case None => None
      case Some(end) => Some(Cut(s, start, end + |END_FUNCTION_CALL|))
  }

  // Both tags occur and the first closing tag comes first.
  predicate Crossed(s: string) {
    var open, close := Find(s, FUNCTION_CALL), Find(s, END_FUNCTION_CALL);
    open.Some? && close.Some? && close.value < open.value
  }

  lemma FunctionCallTags()
    ensures IsTag(FUNCTION_CALL) && IsTag(END_FUNCTION_CALL)
  {
  }

  // Inside an occurrence of a tag no other tag starts.
  lemma NoTagInside(s: string, tag: string, i: nat, j: nat)
    requires IsTag(tag) && OccursAt(s, tag, i) && i < j < i + |tag|
    ensures s[j] != '<'
  {
    assert s[i..i + |tag|][j - i] == s[j];
  }

  lemma StartsWithAngle(s: string, tag: string, i: nat)
    requires IsTag(tag) && OccursAt(s, tag, i)
    ensures s[i] == '<'
  {
    assert s[i..i + |tag|][0] == s[i];
  }

  // Positions of the two first tags, which never overlap.
  lemma TagsApart(s: string, open: nat, close: nat)
    requires Find(s, FUNCTION_CALL) == Some(open) && Find(s, END_FUNCTION_CALL) == Some(close)
    ensures if close < open then close + |END_FUNCTION_CALL| <= open else open + |FUNCTION_CALL| <= close
  {
    FunctionCallTags();
    StartsWithAngle(s, FUNCTION_CALL, open);
    StartsWithAngle(s, END_FUNCTION_CALL, close);
    assert s[open..open + |FUNCTION_CALL|][1] == s[open + 1] == 'F';
    assert s[close..close + |END_FUNCTION_CALL|][1] == s[close + 1] == '/';
    if close < open < close + |END_FUNCTION_CALL| {
      NoTagInside(s, END_FUNCTION_CALL, close, open);
    } else if open < close < open + |FUNCTION_CALL| {
      NoTagInside(s, FUNCTION_CALL, open, close);
    }
  }

  // A pass shortens the text exactly when the first opening tag comes first.
  lemma PassShrinksIff(s: string)
    requires FunctionCallStep(s).Some?
    ensures |FunctionCallStep(s).value| < |s| <==> !Crossed(s)
  {
    TagsApart(s, Find(s, FUNCTION_CALL).value, Find(s, END_FUNCTION_CALL).value);
  }

  lemma OccursInFront(s: string, back: string, cut: nat, pattern: string, i: nat)
    requires cut <= |s| && i + |pattern| <= cut
    ensures OccursAt(s[..cut] + back, pattern, i) <==> OccursAt(s, pattern, i)
  {
    assert (s[..cut] + back)[i..i + |pattern|] == s[i..i + |pattern|];
  }

  lemma OccursInBack(front: string, s: string, cut: nat, pattern: string, i: nat)
    requires cut <= i && OccursAt(s, pattern, i)
    ensures OccursAt(front + s[cut..], pattern, |front| + (i - cut))
  {
    var j := |front| + (i - cut);
    assert (front + s[cut..])[j..j + |pattern|] == s[i..i + |pattern|];
  }

  // Once crossed, always crossed: the pass copies the closing tag and keeps an
  // opening tag behind it.
  lemma CrossedPersists(s: string)
    requires Crossed(s)
    ensures FunctionCallStep(s).Some? && Crossed(FunctionCallStep(s).value)
  {
    var open, close := Find(s, FUNCTION_CALL).value, Find(s, END_FUNCTION_CALL).value;
    TagsApart(s, open, close);
    var cut := close + |END_FUNCTION_CALL|;
    var next := Cut(s, open, cut);
    forall i: nat | i <= close
      ensures OccursAt(next, END_FUNCTION_CALL, i) <==> OccursAt(s, END_FUNCTION_CALL, i)
      ensures !OccursAt(next, FUNCTION_CALL, i)
    {
      OccursInFront(s, s[cut..], open, END_FUNCTION_CALL, i);
      OccursInFront(s, s[cut..], open, FUNCTION_CALL, i);
    }
    FindIs(next, END_FUNCTION_CALL, close);
    OccursInBack(s[..open], s, cut, FUNCTION_CALL, open);
  }

  // A pass takes out the first block and nothing else.
  lemma FirstFunctionCallGoes(first: string, body: string, after: string)
    requires !Contains(first, "<FunctionCall>") && !Contains(first, "</FunctionCall>") && !Contains(body, "</FunctionCall>")
    ensures FunctionCallStep(first + ("<FunctionCall>" + (body + ("</FunctionCall>" + after)))) == Some(first + after)
  {
    FunctionCallTags();
    var tail := END_FUNCTION_CALL + after;
    FirstIsHere(first, FUNCTION_CALL, body + tail);
    FunctionCallCloserIsHere(first, body, after);
    Halves(first, FUNCTION_CALL + (body + tail));
    DropBlock(first, FUNCTION_CALL, body, END_FUNCTION_CALL, after);
  }

  lemma FunctionCallCloserIsHere(first: string, body: string, after: string)
    requires !Contains(first, END_FUNCTION_CALL) && !Contains(body, END_FUNCTION_CALL)
    ensures Find(first + (FUNCTION_CALL + (body + (END_FUNCTION_CALL + after))), END_FUNCTION_CALL)
         == Some(|first| + |FUNCTION_CALL| + |body|)
  {
    var a := first + (FUNCTION_CALL + body);
    FunctionCallTags();
    forall i: nat
      ensures !OccursAt(a, END_FUNCTION_CALL, i)
    {
      NoCloserBefore(first, body, a, i);
    }
    FirstIsHere(a, END_FUNCTION_CALL, after);
    Associative(FUNCTION_CALL, body, END_FUNCTION_CALL + after);
    Associative(first, FUNCTION_CALL + body, END_FUNCTION_CALL + after);
  }

  lemma NoCloserBefore(first: string, body: string, a: string, i: nat)
    requires a == first + (FUNCTION_CALL + body)
    requires !Contains(first, END_FUNCTION_CALL) && !Contains(body, END_FUNCTION_CALL)
    ensures !OccursAt(a, END_FUNCTION_CALL, i)
  {
    var (n, start) := (|END_FUNCTION_CALL|, |first| + |FUNCTION_CALL|);
    FunctionCallTags();
    if i + n <= |first| {
      assert a[i..i + n] == first[i..i + n];
      assert !OccursAt(first, END_FUNCTION_CALL, i);
    } else if start <= i && i + n <= |a| {
      assert a[i..i + n] == body[i - start..i - start + n];
      assert !OccursAt(body, END_FUNCTION_CALL, i - start);
    } else if i < |first| {
      assert a[|first|] == '<';
      Mismatch(a, END_FUNCTION_CALL, i, |first| - i);
    } else if i == |first| {
      assert a[i + 1] == 'F' && END_FUNCTION_CALL[1] == '/';
      Mismatch(a, END_FUNCTION_CALL, i, 1);
    } else if i < start {
      assert a[i] == FUNCTION_CALL[i - |first|] != '<';
      Mismatch(a, END_FUNCTION_CALL, i, 0);
    }
  }

  // Follow the passes while they shorten the text; a pass that does not is final.
  predicate Settles(s: string)
    decreases |s|
  {
    match FunctionCallStep(s)
    case None => true
    case Some(next) => |next| < |s| && Settles(next)
  }

  // A loop that replaces its text by `step` enters its body at least `n` times.
  ghost predicate RunsFor(step: string -> Option<string>, s: string, n: nat)
    decreases n
  {
    n == 0 || (step(s).Some? && RunsFor(step, step(s).value, n - 1))
  }

  function FunctionCallLoop(): string -> Option<string> {
    s => FunctionCallStep(s)
  }

  lemma {:induction false} TrappedRunsForever(step: string -> Option<string>, trapped: string -> bool, s: string, n: nat)
    requires forall t :: trapped(t) ==> step(t).Some? && trapped(step(t).value)
    requires trapped(s)
    ensures RunsFor(step, s, n)
    decreases n
  {
    if n > 0 {
      TrappedRunsForever(step, trapped, step(s).value, n - 1);
    }
  }

  lemma {:induction false} ShrinkingStops(step: string -> Option<string>, settles: string -> bool, s: string)
    requires forall t :: settles(t) && step(t).Some? ==> |step(t).value| < |t| && settles(step(t).value)
    requires settles(s)
    ensures exists n: nat :: !RunsFor(step, s, n)
    decreases |s|
  {
    if step(s).None? {
      assert !RunsFor(step, s, 1);
    } else {
      ShrinkingStops(step, settles, step(s).value);
      var n: nat :| !RunsFor(step, step(s).value, n);
      assert !RunsFor(step, s, n + 1);
    }
  }

  lemma CrossedIsUnsettled(s: string)
    requires Crossed(s)
    ensures !Settles(s)
  {
    CrossedPersists(s);
    PassShrinksIff(s);
  }

  lemma UnsettledStays(s: string)
    requires !Settles(s)
    ensures FunctionCallStep(s).Some? && !Settles(FunctionCallStep(s).value)
  {
    PassShrinksIff(s);
    if Crossed(s) {
      CrossedPersists(s);
      CrossedIsUnsettled(FunctionCallStep(s).value);
    }
  }

  // Exactly when the `<FunctionCall>` loop stops.
  lemma LoopStopsIff(s: string)
    ensures (exists n: nat :: !RunsFor(FunctionCallLoop(), s, n)) <==> Settles(s)
  {
    if Settles(s) {
      ShrinkingStops(FunctionCallLoop(), t => Settles(t), s);
    } else {
      forall t | !Settles(t)
        ensures FunctionCallStep(t).Some? && !Settles(FunctionCallStep(t).value)
      {
        UnsettledStays(t);
      }
      forall n: nat
        ensures RunsFor(FunctionCallLoop(), s, n)
      {
        TrappedRunsForever(FunctionCallLoop(), t => !Settles(t), s, n);
      }
    }
  }

  // A closing tag in front of any text that starts with an opening tag.
  lemma CrossedTagsNeverStop(rest: string, n: nat)
    ensures RunsFor(FunctionCallLoop(), END_FUNCTION_CALL + (FUNCTION_CALL + rest), n)
  {
    var behind := FUNCTION_CALL + rest;
    var s := END_FUNCTION_CALL + behind;
    FunctionCallTags();
    ReadsAt(END_FUNCTION_CALL, behind, FUNCTION_CALL);
    ReadsAt("", s, END_FUNCTION_CALL);
    assert "" + s == s;
    FindIs(s, END_FUNCTION_CALL, 0);
    TagsDiffer(END_FUNCTION_CALL, FUNCTION_CALL, behind);
    ReadsAt("", s, FUNCTION_CALL);
    CrossedIsUnsettled(s);
    LoopStopsIff(s);
  }

  // A call with one argument, as the guard of the loop asks for one: a name of
  // word characters and a line `key>value` between the code tags.
  datatype FunctionCall = FunctionCall(name: string, key: string, value: string) {
    predicate Complete() {
      && name != "" && (forall c | c in name :: IsWordCharacter(c))
      && !Blank(key) && !Blank(value)
      && (forall c | c in key :: c != '<' && c != '>' && c != '\n')
      && (forall c | c in value :: c != '<' && c != '\n')
    }

    function Print(): string {
      FUNCTION_CALL + (name + "<code>" + key + ">" + value + "</code>" + END_FUNCTION_CALL)
    }
  }

  // The ASCII part of the regular expression's `\w`.
  predicate IsWordCharacter(c: char) {
    'a' <= c <= 'z' || 'A' <= c <= 'Z' || '0' <= c <= '9' || c == '_'
  }

  ghost predicate EntersLoop(text: string) {
    exists before: string, call: FunctionCall, after: string ::
      call.Complete() && text == before + (call.Print() + after)
  }

  // The loop is entered on such texts: a stray closing tag before any complete
  // call is enough.
  lemma StrayCloserNeverStops(call: FunctionCall, after: string, n: nat)
    requires call.Complete()
    ensures var text := END_FUNCTION_CALL + (call.Print() + after);
            EntersLoop(text) && RunsFor(FunctionCallLoop(), text, n)
  {
    var tail := call.name + "<code>" + call.key + ">" + call.value + "</code>" + END_FUNCTION_CALL;
    assert call.Print() + after == FUNCTION_CALL + (tail + after);
    CrossedTagsNeverStop(tail + after, n);
  }

  // Number of passes on a text on which the loop stops.
  function FunctionCallPasses(s: string): nat
    requires Settles(s)
    decreases |s|
  {
    match FunctionCallStep(s)
    case None => 0
    case Some(next) => 1 + FunctionCallPasses(next)
  }

  ghost function FunctionCallsRemoved(s: string): Option<string>
    requires Settles(s)
  {
    AfterPasses(FunctionCallLoop(), s, FunctionCallPasses(s))
  }

  lemma OnePassLess(s: string, next: string)
    requires Settles(s) && FunctionCallStep(s) == Some(next)
    ensures Settles(next) && |next| < |s| && FunctionCallsRemoved(s) == FunctionCallsRemoved(next)
  {
    assert FunctionCallPasses(s) == 1 + FunctionCallPasses(next);
    FirstPass(FunctionCallLoop(), s, next, FunctionCallPasses(next));
  }

  lemma FirstPass(step: string -> Option<string>, s: string, next: string, n: nat)
    requires step(s) == Some(next)
    ensures AfterPasses(step, s, n + 1) == AfterPasses(step, next, n)
  {
  }

  // On every text on which it stops, the loop leaves what its passes leave.
  method RemoveFunctionCallBlocks(text: string) returns (cleaned: string)
    requires Settles(text)
    ensures FunctionCallsRemoved(text) == Some(cleaned)
    ensures FunctionCallStep(cleaned).None? && |cleaned| <= |text|
  {
    cleaned := text;
    while true
      invariant Settles(cleaned) && |cleaned| <= |text|
      invariant FunctionCallsRemoved(text) == FunctionCallsRemoved(cleaned)
      decreases |cleaned|
    {
      var start := Find(cleaned, FUNCTION_CALL);
      if start.None? {
        break;
      }
      var end := Find(cleaned, END_FUNCTION_CALL);
      if end.None? {
        break;
      }
      var next := Cut(cleaned, start.value, end.value + |END_FUNCTION_CALL|);
      OnePassLess(cleaned, next);
      cleaned := next;
    }
  }
}
