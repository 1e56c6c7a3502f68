// The tag loop gives back what was printed as tag blocks, and never invents text.
module TagRoundTrip {
  import opened Wrappers
  import opened Json
  import opened Text
  import opened ToolCalls
  import opened TagLoop

  // ------------------------------------------------- where tags can occur

  // No tag lies across a "<" that does not start it.
  lemma NoStraddle(a: string, b: string, tag: string, i: nat)
    requires IsTag(tag) && b != "" && b[0] == '<' && i < |a|
    ensures OccursAt(a + b, tag, i) ==> OccursAt(a, tag, i)
  {
    var s := a + b;
    if i + |tag| <= |a| {
      assert a[i..i + |tag|] == s[i..i + |tag|];
    } else if i + |tag| <= |s| {
      assert s[i..i + |tag|][|a| - i] == s[|a|] == '<';
      assert tag[|a| - i] != '<';
    }
  }

  lemma ReadsAt(a: string, b: string, tag: string)
    ensures OccursAt(a + b, tag, |a|) <==> tag <= b
  {
    if |tag| <= |b| {
      assert (a + b)[|a|..|a| + |tag|] == b[..|tag|];
    }
  }

  lemma FirstIsHere(a: string, tag: string, rest: string)
    requires IsTag(tag) && !Contains(a, tag)
    ensures Find(a + (tag + rest), tag) == Some(|a|)
  {
    var b := tag + rest;
    ReadsAt(a, b, tag);
    forall i: nat | i < |a|
      ensures !OccursAt(a + b, tag, i)
    {
      NoStraddle(a, b, tag, i);
    }
    FindIs(a + b, tag, |a|);
  }

  // Different tags cannot start at the same place.
  lemma TagsDiffer(t: string, u: string, rest: string)
    requires IsTag(t) && IsTag(u) && t != u
    ensures !(u <= t + rest)
  {
    var b := t + rest;
    if |u| < |t| {
      assert b[|u| - 1] == t[|u| - 1] != '>';
    } else if |u| > |t| {
      assert b[|t| - 1] == '>' != u[|t| - 1];
    } else {
      assert b[..|t|] == t;
    }
  }

  lemma OtherTagIsLater(a: string, t: string, u: string, rest: string)
    requires IsTag(t) && IsTag(u) && t != u && !Contains(a, u)
    ensures var found := Find(a + (t + rest), u); found.Some? ==> found.value > |a|
  {
    var b := t + rest;
    ReadsAt(a, b, u);
    TagsDiffer(t, u, rest);
    forall i: nat | i < |a|
      ensures !OccursAt(a + b, u, i)
    {
      NoStraddle(a, b, u, i);
    }
  }

  // No opening tag of any kind.
  predicate TagFree(text: string) {
    forall k | 0 <= k < 6 :: !Contains(text, OPEN_TAGS[k])
  }

  lemma OpenTagsDiffer(i: nat, j: nat)
    requires i < j < 6
    ensures OPEN_TAGS[i] != OPEN_TAGS[j]
  {
    assert OPEN_TAGS[0][5] == '_' && OPEN_TAGS[1][5] == 'c' && OPEN_TAGS[2][5] == '-' && OPEN_TAGS[3][5] == 'k';
    assert OPEN_TAGS[4][5] == 'm' && OPEN_TAGS[4][13] == '_';
    assert OPEN_TAGS[5][5] == 'm' && OPEN_TAGS[5][13] == 'c';
  }

  // Among different tags, none of which occurs in `a`, the one after `a` is first.
  lemma FirstTagIsHere(tags: seq<string>, a: string, k: nat, rest: string)
    requires k < |tags| && forall i | 0 <= i < |tags| :: IsTag(tags[i]) && !Contains(a, tags[i])
    requires forall i, j | 0 <= i < j < |tags| :: tags[i] != tags[j]
    ensures FindFirstTag(a + (tags[k] + rest), tags) == Some(Hit(|a|, k))
  {
    FirstIsHere(a, tags[k], rest);
    var hit := FindFirstTag(a + (tags[k] + rest), tags);
    assert hit.Some? && hit.value.at <= |a|;
    if hit.value.tag != k {
      OtherTagIsLater(a, tags[k], tags[hit.value.tag], rest);
    }
  }

  lemma FirstOpenTagIsHere(a: string, k: nat, rest: string)
    requires k < 6 && TagFree(a)
    ensures FindFirstTag(a + (OPEN_TAGS[k] + rest), OPEN_TAGS) == Some(Hit(|a|, k))
  {
    forall i | 0 <= i < |OPEN_TAGS|
      ensures IsTag(OPEN_TAGS[i])
    {
      TagsAreBracketed(i);
    }
    forall i, j | 0 <= i < j < |OPEN_TAGS|
      ensures OPEN_TAGS[i] != OPEN_TAGS[j]
    {
      OpenTagsDiffer(i, j);
    }
    FirstTagIsHere(OPEN_TAGS, a, k, rest);
  }

  // -------------------------------------------------------------- round trip

  // One tag block: which of the six tags, its body, and the text up to the next block.
  datatype Block = Block(tag: nat, body: string, after: string)

  predicate PrintableBlock(b: Block) {
    b.tag < 6 && !Contains(b.body, CLOSE_TAGS[b.tag]) && TagFree(b.after)
  }

  predicate Printable(first: string, blocks: seq<Block>) {
    TagFree(first) && forall i | 0 <= i < |blocks| :: PrintableBlock(blocks[i])
  }

  function Print(first: string, blocks: seq<Block>): string
    requires Printable(first, blocks)
    decreases blocks
  {
    if blocks == [] then first
    else
      var b := blocks[0];
      first + (OPEN_TAGS[b.tag] + (b.body + (CLOSE_TAGS[b.tag] + Print(b.after, blocks[1..]))))
  }

  // Texts before each block, without the blank ones.
  function TextsBefore(first: string, blocks: seq<Block>): seq<string>
    decreases blocks
  {
    if blocks == [] then [] else NonBlank(first) + TextsBefore(blocks[0].after, blocks[1..])
  }

  function LastText(first: string, blocks: seq<Block>): string
    decreases blocks
  {
    if blocks == [] then first else LastText(blocks[0].after, blocks[1..])
  }

  function CallsInBlocks(f: Formats, blocks: seq<Block>): seq<ToolCall> {
    if blocks == [] then [] else CallsIn(f, blocks[0].body) + CallsInBlocks(f, blocks[1..])
  }

  lemma Slices(a: string, b: string, c: string)
    ensures (a + (b + c))[..|a|] == a && (a + (b + c))[|a| + |b|..] == c
  {
  }

  lemma TurnOnBlock(f: Formats, first: string, b: Block, rest: string)
    requires TagFree(first) && PrintableBlock(b)
    ensures OneTurn(f, first + (OPEN_TAGS[b.tag] + (b.body + (CLOSE_TAGS[b.tag] + rest))))
         == Pushed(NonBlank(first), CallsIn(f, b.body), rest)
  {
    var afterOpen := b.body + (CLOSE_TAGS[b.tag] + rest);
    FirstOpenTagIsHere(first, b.tag, afterOpen);
    Halves(first, OPEN_TAGS[b.tag] + afterOpen);
    BlockAtTag(f, first, OPEN_TAGS[b.tag], CLOSE_TAGS[b.tag], b, rest);
  }

  lemma Halves(a: string, b: string)
    ensures (a + b)[..|a|] == a && (a + b)[|a|..] == b
  {
  }

  lemma BlockAtTag(f: Formats, before: string, openTag: string, closeTag: string, b: Block, rest: string)
    requires PrintableBlock(b) && closeTag == CLOSE_TAGS[b.tag]
    ensures AtTag(f, before, openTag + (b.body + (closeTag + rest)), openTag, closeTag)
         == Pushed(NonBlank(before), CallsIn(f, b.body), rest)
  {
    TagsAreBracketed(b.tag);
    Halves(openTag, b.body + (closeTag + rest));
    FirstIsHere(b.body, closeTag, rest);
    Slices(b.body, closeTag, rest);
  }

  lemma TurnOnText(f: Formats, text: string)
    requires TagFree(text)
    ensures OneTurn(f, text) == Finished(text)
  {
    assert FindFirstTag(text, OPEN_TAGS).None?;
  }

  // Main result: printed blocks come back in order, body by body, and the texts
  // between them come back trimmed and in order.
  lemma {:induction false} PrintedBlocksComeBack(f: Formats, first: string, blocks: seq<Block>)
    requires Printable(first, blocks)
    ensures ParseTags(f, Print(first, blocks))
         == Parsed(TextsBefore(first, blocks), CallsInBlocks(f, blocks), LastText(first, blocks))
    decreases blocks
  {
    if blocks == [] {
      TurnOnText(f, first);
      IterateStops(Turns(f), first);
    } else {
      var b := blocks[0];
      var rest := Print(b.after, blocks[1..]);
      TurnOnBlock(f, first, b, rest);
      PrintedBlocksComeBack(f, b.after, blocks[1..]);
      IterateGoesOn(Turns(f), Print(first, blocks), NonBlank(first), CallsIn(f, b.body), rest);
    }
  }

  lemma IterateStops(step: string -> Turn, s: string)
    requires Shrinks(step) && step(s) == Finished(s)
    ensures Iterate(step, s) == Parsed([], [], s)
  {
  }

  lemma IterateGoesOn(step: string -> Turn, s: string, text: seq<string>, calls: seq<ToolCall>, rest: string)
    requires Shrinks(step) && step(s) == Pushed(text, calls, rest)
    ensures Iterate(step, s) == Iterate(step, rest).Before(text, calls)
  {
  }

  // A body that is the JSON of one call, padded with whitespace.
  lemma JsonBodyGivesCall(f: Formats, call: ToolCall, text: string, before: string, after: string)
    requires WellFormed(call) && f.fromStr(text) == Some(CallJson(call)) && IsTrimmed(text)
    requires Blank(before) && Blank(after)
    ensures CallsIn(f, before + (text + after)) == [call]
  {
    TrimPadded(before, text, after);
    CallRoundTrip(f, call);
    OneValue(f, before + (text + after), CallJson(call), call);
  }

  lemma OneValue(f: Formats, body: string, v: Json, call: ToolCall)
    requires Trim(body) != "" && f.fromStr(Trim(body)) == Some(v) && CallsFromValue(f, v) == [call]
    ensures CallsIn(f, body) == [call]
  {
    assert ExtractValues(f, body) == [v];
    assert CallsFromValues(f, [v]) == CallsFromValue(f, v) + CallsFromValues(f, []);
  }

  lemma {:induction false} TrimEndSkipsBlank(s: string, blank: string)
    requires Blank(blank)
    ensures TrimEnd(s + blank) == TrimEnd(s)
    decreases |blank|
  {
    if blank == "" {
      assert s + blank == s;
    } else {
      var n := |blank| - 1;
      assert (s + blank)[..|s + blank| - 1] == s + blank[..n];
      TrimEndSkipsBlank(s, blank[..n]);
    }
  }

  lemma TrimPadded(before: string, text: string, after: string)
    requires Blank(before) && Blank(after) && IsTrimmed(text)
    ensures Trim(before + (text + after)) == text
  {
    TrimStartSkipsBlank(before, text + after);
    TrimmedStarts(text);
    assert (text + after)[0] == text[0];
    assert TrimStart(text + after) == text + after;
    TrimEndSkipsBlank(text, after);
  }

  lemma TrimmedStarts(text: string)
    requires IsTrimmed(text)
    ensures TrimStart(text) == text && TrimEnd(text) == text && !IsWhitespace(text[0])
  {
  }

  // A printed answer: a first text, then calls, each in a `<tool_call>` block
  // on lines of its own and followed by a text.
  datatype Answer = Answer(call: ToolCall, json: string, after: string)

  function BlocksOf(answers: seq<Answer>): seq<Block> {
    seq(|answers|, i requires 0 <= i < |answers| => Block(0, "\n" + (answers[i].json + "\n"), answers[i].after))
  }

  predicate PrintableAnswer(f: Formats, a: Answer) {
    && WellFormed(a.call) && IsTrimmed(a.json) && f.fromStr(a.json) == Some(CallJson(a.call))
    && PrintableBlock(Block(0, "\n" + (a.json + "\n"), a.after))
  }

  function CallsOfAnswers(answers: seq<Answer>): seq<ToolCall> {
    if answers == [] then [] else [answers[0].call] + CallsOfAnswers(answers[1..])
  }

  lemma PrintedCallsComeBack(f: Formats, first: string, answers: seq<Answer>)
    requires TagFree(first) && forall i | 0 <= i < |answers| :: PrintableAnswer(f, answers[i])
    ensures Printable(first, BlocksOf(answers))
    ensures ParseTags(f, Print(first, BlocksOf(answers))).calls == CallsOfAnswers(answers)
  {
    PrintedBlocksComeBack(f, first, BlocksOf(answers));
    CallsInAnswers(f, answers);
  }

  lemma {:induction false} CallsInAnswers(f: Formats, answers: seq<Answer>)
    requires forall i | 0 <= i < |answers| :: PrintableAnswer(f, answers[i])
    ensures CallsInBlocks(f, BlocksOf(answers)) == CallsOfAnswers(answers)
  {
    if answers != [] {
      var a := answers[0];
      JsonBodyGivesCall(f, a.call, a.json, "\n", "\n");
      CallsInAnswers(f, answers[1..]);
      BlocksUnfold(f, answers);
    }
  }

  lemma BlocksUnfold(f: Formats, answers: seq<Answer>)
    requires answers != []
    ensures CallsInBlocks(f, BlocksOf(answers))
         == CallsIn(f, "\n" + (answers[0].json + "\n")) + CallsInBlocks(f, BlocksOf(answers[1..]))
  {
    assert BlocksOf(answers)[1..] == BlocksOf(answers[1..]);
  }

  // ------------------------------------------------------- nothing is invented

  // The parts are cut out of the text one after the other, without overlap.
  ghost predicate OrderedSlices(text: string, parts: seq<string>)
    decreases |parts|
  {
    parts == [] ||
    exists a: nat, b: nat | a <= b <= |text| && text[a..b] == parts[0] :: OrderedSlices(text[b..], parts[1..])
  }

  lemma {:induction false} SlicesOfSuffix(text: string, suffix: string, parts: seq<string>)
    requires IsSuffix(suffix, text) && OrderedSlices(suffix, parts)
    ensures OrderedSlices(text, parts)
  {
    if parts != [] {
      var d := |text| - |suffix|;
      var a: nat, b: nat :| a <= b <= |suffix| && suffix[a..b] == parts[0] && OrderedSlices(suffix[b..], parts[1..]);
      assert text[d + a..d + b] == suffix[a..b];
      assert text[d + b..] == suffix[b..];
    }
  }

  lemma NonBlankIsSlice(text: string, cut: nat, rest: string, parts: seq<string>)
    requires cut <= |text| && IsSuffix(rest, text[cut..]) && OrderedSlices(rest, parts)
    ensures OrderedSlices(text, NonBlank(text[..cut]) + parts)
  {
    var piece := text[..cut];
    SlicesOfSuffix(text[cut..], rest, parts);
    if Trim(piece) == "" {
      assert NonBlank(piece) + parts == parts;
      DropIsSuffix(text, cut);
      SlicesOfSuffix(text, text[cut..], parts);
    } else {
      var a := |piece| - |TrimStart(piece)|;
      var b := a + |Trim(piece)|;
      assert text[a..b] == Trim(piece);
      assert (NonBlank(piece) + parts)[1..] == parts;
      assert text[cut..] == text[b..][cut - b..];
      SlicesOfSuffix(text[b..], text[cut..], parts);
    }
  }

  // The text a turn pushes ends before the text it goes on with.
  ghost predicate CutAt(turn: Turn, s: string, cut: nat)
    requires !turn.Finished?
  {
    cut <= |s| && turn.text == NonBlank(s[..cut]) && IsSuffix(turn.rest, s[cut..])
  }

  ghost predicate CutsText(step: string -> Turn) {
    forall s :: if step(s).Finished? then step(s).rest == s else exists cut :: CutAt(step(s), s, cut)
  }

  lemma TurnCutsText(f: Formats, s: string)
    ensures var turn := OneTurn(f, s);
            if turn.Finished? then turn.rest == s else exists cut :: CutAt(turn, s, cut)
  {
    var found := FindFirstTag(s, OPEN_TAGS);
    if found.Some? {
      var hit := found.value;
      var turn := OneTurn(f, s);
      var fromTag := s[hit.at..];
      DropIsSuffix(fromTag, |OPEN_TAGS[hit.tag]|);
      if turn.Pushed? {
        SuffixTransitive(turn.rest, fromTag[|OPEN_TAGS[hit.tag]|..], fromTag);
      }
      assert CutAt(turn, s, hit.at);
    }
  }

  // On any input, every text part is a slice of the input, in order and disjoint.
  lemma TextsAreOrderedSlices(f: Formats, response: string)
    ensures OrderedSlices(response, TextParts(ParseTags(f, response)))
  {
    forall s
      ensures var turn := Turns(f)(s);
              if turn.Finished? then turn.rest == s else exists cut :: CutAt(turn, s, cut)
    {
      TurnCutsText(f, s);
    }
    IterateSlices(Turns(f), response);
  }

  lemma {:induction false} IterateSlices(step: string -> Turn, s: string)
    requires Shrinks(step) && CutsText(step)
    ensures OrderedSlices(s, TextParts(Iterate(step, s)))
    decreases |s|
  {
    var turn := step(s);
    if turn.Finished? {
      LeftoverIsSlice(s);
      assert [] + NonBlank(s) == NonBlank(s);
    } else {
      var cut :| CutAt(turn, s, cut);
      if turn.GaveUp? {
        LeftoverIsSlice(turn.rest);
        NonBlankIsSlice(s, cut, turn.rest, NonBlank(turn.rest));
      } else {
        assert |turn.rest| < |s|;
        IterateSlices(step, turn.rest);
        var q := Iterate(step, turn.rest);
        NonBlankIsSlice(s, cut, turn.rest, TextParts(q));
        Associative(turn.text, q.texts, NonBlank(q.rest));
      }
    }
  }

  lemma LeftoverIsSlice(text: string)
    ensures OrderedSlices(text, NonBlank(text))
  {
    assert text[|text|..] == "";
    assert text[..|text|] == text;
    assert IsSuffix("", text[|text|..]);
    NonBlankIsSlice(text, |text|, "", []);
    assert NonBlank(text) + [] == NonBlank(text);
  }
}
