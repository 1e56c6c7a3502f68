// Calls whose block is not closed by its own tag: a block closed by another of
// the six tags, and a JSON object with no closing tag at all.
module TagRecovery {
  import opened Wrappers
  import opened Json
  import opened Text
  import opened ToolCalls
  import opened JsonScanner
  import opened TagLoop
  import opened TagRoundTrip

  // No closing tag of any kind.
  predicate CloseFree(text: string) {
    forall k | 0 <= k < 6 :: !Contains(text, CLOSE_TAGS[k])
  }

  lemma CloseTagsDiffer(i: nat, j: nat)
    requires i < j < 6
    ensures CLOSE_TAGS[i] != CLOSE_TAGS[j]
  {
    assert CLOSE_TAGS[0][6] == '_' && CLOSE_TAGS[1][6] == 'c' && CLOSE_TAGS[2][6] == '-' && CLOSE_TAGS[3][6] == 'k';
    assert CLOSE_TAGS[4][6] == 'm' && CLOSE_TAGS[4][14] == '_';
    assert CLOSE_TAGS[5][6] == 'm' && CLOSE_TAGS[5][14] == 'c';
  }

  lemma FirstCloseTagIsHere(a: string, k: nat, rest: string)
    requires k < 6 && CloseFree(a)
    ensures FindFirstTag(a + (CLOSE_TAGS[k] + rest), CLOSE_TAGS) == Some(Hit(|a|, k))
  {
    forall i | 0 <= i < |CLOSE_TAGS|
      ensures IsTag(CLOSE_TAGS[i])
    {
      TagsAreBracketed(i);
    }
    forall i, j | 0 <= i < j < |CLOSE_TAGS|
      ensures CLOSE_TAGS[i] != CLOSE_TAGS[j]
    {
      CloseTagsDiffer(i, j);
    }
    FirstTagIsHere(CLOSE_TAGS, a, k, rest);
  }

  // The turn at an opening tag whose own closing tag does not follow.
  lemma TurnWithoutCloseTag(f: Formats, first: string, open: nat, afterOpen: string, r: Recovery)
    requires open < 6 && TagFree(first) && !Contains(afterOpen, CLOSE_TAGS[open])
    requires Recover(f, afterOpen) == Some(r)
    ensures OneTurn(f, first + (OPEN_TAGS[open] + afterOpen)) == Pushed(NonBlank(first), r.calls, r.rest)
  {
    FirstOpenTagIsHere(first, open, afterOpen);
    Halves(first, OPEN_TAGS[open] + afterOpen);
    Halves(OPEN_TAGS[open], afterOpen);
    RecoverAtTag(f, first, OPEN_TAGS[open] + afterOpen, OPEN_TAGS[open], CLOSE_TAGS[open], afterOpen, r);
  }

  lemma RecoverAtTag(f: Formats, before: string, fromTag: string, openTag: string, closeTag: string, afterOpen: string, r: Recovery)
    requires openTag <= fromTag && fromTag[|openTag|..] == afterOpen && !Contains(afterOpen, closeTag)
    requires Recover(f, afterOpen) == Some(r)
    ensures AtTag(f, before, fromTag, openTag, closeTag) == Pushed(NonBlank(before), r.calls, r.rest)
  {
  }

  lemma BodyBefore(f: Formats, afterOpen: string, at: nat, tag: nat, end: nat)
    requires FindFirstTag(afterOpen, CLOSE_TAGS) == Some(Hit(at, tag))
    requires end == at + |CLOSE_TAGS[tag]| && end <= |afterOpen|
    ensures UpToAnyCloseTag(f, afterOpen) == IfAny(CallsIn(f, afterOpen[..at]), afterOpen[end..])
  {
  }

  lemma SameParts(f: Formats, s: string, at: nat, end: nat, body: string, rest: string)
    requires at <= |s| && end <= |s| && s[..at] == body && s[end..] == rest
    ensures IfAny(CallsIn(f, s[..at]), s[end..]) == IfAny(CallsIn(f, body), rest)
  {
  }

  lemma FirstFallbackWins(f: Formats, afterOpen: string, r: Recovery)
    requires UpToAnyCloseTag(f, afterOpen) == Some(r)
    ensures Recover(f, afterOpen) == Some(r)
  {
  }

  lemma OtherCloseTagEndsBody(f: Formats, s: string, body: string, close: nat, end: nat, rest: string)
    requires close < 6 && CallsIn(f, body) != [] && FindFirstTag(s, CLOSE_TAGS) == Some(Hit(|body|, close))
    requires end == |body| + |CLOSE_TAGS[close]| && end <= |s| && s[..|body|] == body && s[end..] == rest
    ensures Recover(f, s) == Some(Recovery(CallsIn(f, body), rest))
  {
    BodyBefore(f, s, |body|, close, end);
    SameParts(f, s, |body|, end, body, rest);
    FirstFallbackWins(f, s, Recovery(CallsIn(f, body), rest));
  }

  // Main result 1: a body closed by another of the six tags gives its calls, and
  // the loop goes on after that tag.
  lemma CrossAliasBlockComesBack(f: Formats, first: string, open: nat, body: string, close: nat, rest: string)
    requires open < 6 && close < 6 && TagFree(first) && CloseFree(body) && CallsIn(f, body) != []
    requires !Contains(body + (CLOSE_TAGS[close] + rest), CLOSE_TAGS[open])
    ensures ParseTags(f, first + (OPEN_TAGS[open] + (body + (CLOSE_TAGS[close] + rest)))) ==
            ParseTags(f, rest).Before(NonBlank(first), CallsIn(f, body))
  {
    var afterOpen := body + (CLOSE_TAGS[close] + rest);
    var r := Recovery(CallsIn(f, body), rest);
    FirstCloseTagIsHere(body, close, rest);
    Slices(body, CLOSE_TAGS[close], rest);
    OtherCloseTagEndsBody(f, afterOpen, body, close, |body| + |CLOSE_TAGS[close]|, rest);
    TurnWithoutCloseTag(f, first, open, afterOpen, r);
    IterateGoesOn(Turns(f), first + (OPEN_TAGS[open] + afterOpen), NonBlank(first), r.calls, r.rest);
  }

  lemma NoCloseTagFound(text: string)
    requires CloseFree(text)
    ensures FindFirstTag(text, CLOSE_TAGS) == None
  {
    var hit := FindFirstTag(text, CLOSE_TAGS);
    assert forall k | 0 <= k < |CLOSE_TAGS| :: Find(text, CLOSE_TAGS[k]).None?;
  }

  // The object at the front is cut out exactly, whatever follows it.
  lemma LeadingObjectIsRead(f: Formats, blank: string, v: Value, rest: string, j: Json)
    requires Blank(blank) && v.Object? && ValidValue(v)
    requires f.fromStr(blank + ValueText(v)) == Some(j) && CallsFromValue(f, j) != []
    ensures LeadingObject(f, blank + (ValueText(v) + rest)) ==
            Some(Recovery(CallsFromValue(f, j), StripLeadingCloseTags(rest)))
  {
    ScannerFindsObject(blank, v, rest);
    var afterOpen := blank + (ValueText(v) + rest);
    var end := |blank| + |ValueText(v)|;
    Associative(blank, ValueText(v), rest);
    Halves(blank + ValueText(v), rest);
    assert afterOpen[..end] == blank + ValueText(v) && afterOpen[end..] == rest;
  }

  // Main result 2: an object text after an opening tag with no closing tag at all
  // gives its calls, by brace balancing, and the loop goes on after it.
  lemma UnclosedCallIsRecovered(f: Formats, first: string, open: nat, blank: string, v: Value, rest: string, j: Json)
    requires open < 6 && TagFree(first) && Blank(blank) && v.Object? && ValidValue(v)
    requires CloseFree(blank + (ValueText(v) + rest))
    requires f.fromStr(blank + ValueText(v)) == Some(j) && CallsFromValue(f, j) != []
    ensures ParseTags(f, first + (OPEN_TAGS[open] + (blank + (ValueText(v) + rest)))) ==
            ParseTags(f, StripLeadingCloseTags(rest)).Before(NonBlank(first), CallsFromValue(f, j))
  {
    var afterOpen := blank + (ValueText(v) + rest);
    NoCloseTagFound(afterOpen);
    LeadingObjectIsRead(f, blank, v, rest, j);
    var r := Recovery(CallsFromValue(f, j), StripLeadingCloseTags(rest));
    assert Recover(f, afterOpen) == Some(r);
    TurnWithoutCloseTag(f, first, open, afterOpen, r);
    IterateGoesOn(Turns(f), first + (OPEN_TAGS[open] + afterOpen), NonBlank(first), r.calls, r.rest);
  }

  // ------------------------------------------------- what is read in a body

  // One after the other, each value read on its own.
  function InOrder(f: Formats, items: seq<Json>): seq<ToolCall> {
    if items == [] then [] else CallsFromValue(f, items[0]) + InOrder(f, items[1..])
  }

  // Neither the body as one JSON text nor the values embedded in it give a call.
  predicate NoJsonCalls(f: Formats, body: string) {
    var trimmed := Trim(body);
    trimmed == "" ||
    match f.fromStr(trimmed)
    case Some(v) => CallsFromValue(f, v) == []
    case None => InOrder(f, f.stream(trimmed)) == []
  }

  lemma {:induction false} ValuesInOrder(f: Formats, values: seq<Json>)
    ensures CallsFromValues(f, values) == InOrder(f, values)
  {
    if values != [] {
      ValuesInOrder(f, values[1..]);
    }
  }

  // The calls of a body: its JSON, as a whole or embedded; then nested XML; then
  // the short form.
  lemma BodyIsRead(f: Formats, body: string)
    ensures var trimmed := Trim(body);
            !NoJsonCalls(f, body) ==>
              CallsIn(f, body) ==
              match f.fromStr(trimmed) { case Some(v) => CallsFromValue(f, v) case None => InOrder(f, f.stream(trimmed)) }
    ensures NoJsonCalls(f, body) && f.xml(body) != [] ==> CallsIn(f, body) == f.xml(body)
    ensures NoJsonCalls(f, body) && f.xml(body) == [] ==>
              CallsIn(f, body) == match f.glm(body) { case Some(call) => [call] case None => [] }
  {
    var trimmed := Trim(body);
    ValuesInOrder(f, ExtractValues(f, body));
    if trimmed != "" && f.fromStr(trimmed).Some? {
      assert InOrder(f, [f.fromStr(trimmed).value]) == CallsFromValue(f, f.fromStr(trimmed).value) + InOrder(f, []);
    }
  }

  // -------------------------------------------------- stray closing tags

  datatype Stray = Stray(blank: string, name: string)

  predicate PrintableStray(t: Stray) {
    Blank(t.blank) && '>' !in t.name
  }

  function PrintStrays(strays: seq<Stray>, rest: string): string {
    if strays == [] then rest
    else strays[0].blank + ("</" + (strays[0].name + (">" + PrintStrays(strays[1..], rest))))
  }

  // Text that starts with something else.
  predicate StartsElsewhere(rest: string) {
    rest != "" ==> !IsWhitespace(rest[0]) && !("</" <= rest)
  }

  lemma StartsVisibly(s: string)
    requires s == "" || !IsWhitespace(s[0])
    ensures TrimStart(s) == s
  {
  }

  lemma StripStops(input: string, trimmed: string)
    requires TrimStart(input) == trimmed && !("</" <= trimmed)
    ensures StripLeadingCloseTags(input) == trimmed
  {
  }

  lemma StripGoesOn(input: string, trimmed: string, end: nat, rest: string)
    requires TrimStart(input) == trimmed && "</" <= trimmed && Find(trimmed, ">") == Some(end)
    requires end + 1 <= |trimmed| && trimmed[end + 1..] == rest
    ensures StripLeadingCloseTags(input) == StripLeadingCloseTags(rest)
  {
  }

  lemma StripTakesAll(input: string, trimmed: string)
    requires TrimStart(input) == trimmed && "</" <= trimmed && Find(trimmed, ">") == None
    ensures StripLeadingCloseTags(input) == ""
  {
  }

  lemma BlankGoes(blank: string, rest: string)
    requires Blank(blank) && StartsElsewhere(rest)
    ensures StripLeadingCloseTags(blank + rest) == rest
  {
    TrimStartSkipsBlank(blank, rest);
    StartsVisibly(rest);
    NoPrefixOfEmpty(rest);
    StripStops(blank + rest, rest);
  }

  lemma NoPrefixOfEmpty(rest: string)
    requires rest != "" ==> !("</" <= rest)
    ensures !("</" <= rest)
  {
  }

  lemma EndOfStray(name: string, rest: string)
    requires '>' !in name
    ensures Find("</" + (name + (">" + rest)), ">") == Some(|name| + 2)
  {
    var s := "</" + (name + (">" + rest));
    forall i: nat | i < |name| + 2
      ensures !OccursAt(s, ">", i)
    {
      assert i >= 2 ==> s[i] == name[i - 2] && name[i - 2] in name;
      Mismatch(s, ">", i, 0);
    }
    assert s[|name| + 2..|name| + 2 + 1] == ">";
    FindIs(s, ">", |name| + 2);
  }

  lemma StrayGoes(t: Stray, rest: string)
    requires PrintableStray(t)
    ensures StripLeadingCloseTags(t.blank + ("</" + (t.name + (">" + rest)))) == StripLeadingCloseTags(rest)
  {
    var s := "</" + (t.name + (">" + rest));
    TrimStartSkipsBlank(t.blank, s);
    StartsVisibly(s);
    EndOfStray(t.name, rest);
    AfterStray(t.name, rest);
    StripGoesOn(t.blank + s, s, |t.name| + 2, rest);
  }

  lemma AfterStray(name: string, rest: string)
    ensures var s := "</" + (name + (">" + rest)); "</" <= s && |name| + 3 <= |s| && s[|name| + 2 + 1..] == rest
  {
  }

  // Leading closing tags and blanks go, and the text behind them stays.
  lemma {:induction false} StraysGo(strays: seq<Stray>, blank: string, rest: string)
    requires (forall i | 0 <= i < |strays| :: PrintableStray(strays[i])) && Blank(blank) && StartsElsewhere(rest)
    ensures StripLeadingCloseTags(PrintStrays(strays, blank + rest)) == rest
  {
    if strays == [] {
      BlankGoes(blank, rest);
    } else {
      StrayGoes(strays[0], PrintStrays(strays[1..], blank + rest));
      StraysGo(strays[1..], blank, rest);
    }
  }

  // A closing tag that does not end takes all that follows.
  lemma EndlessStrayGoes(blank: string, name: string)
    requires Blank(blank) && '>' !in name
    ensures StripLeadingCloseTags(blank + ("</" + name)) == ""
  {
    var s := "</" + name;
    TrimStartSkipsBlank(blank, s);
    StartsVisibly(s);
    NeverEnds(name);
    StripTakesAll(blank + s, s);
  }

  lemma NeverEnds(name: string)
    requires '>' !in name
    ensures "</" <= "</" + name && Find("</" + name, ">") == None
  {
    var s := "</" + name;
    forall i: nat
      ensures !OccursAt(s, ">", i)
    {
      if i < |s| {
        assert i >= 2 ==> s[i] == name[i - 2] && name[i - 2] in name;
        Mismatch(s, ">", i, 0);
      }
    }
  }

  // ------------------------------------------------ the fallbacks, in order

  // The first closing tag of any kind, if there is one, ends no body with calls.
  predicate NoCallsBeforeCloseTag(f: Formats, afterOpen: string) {
    match FindFirstTag(afterOpen, CLOSE_TAGS)
    case Some(hit) => CallsIn(f, afterOpen[..hit.at]) == []
    case None => true
  }

  // No object with calls stands right behind the opening tag.
  predicate NoLeadingCalls(f: Formats, afterOpen: string) {
    match JsonEnd(afterOpen)
    case Some(end) => f.fromStr(afterOpen[..end]).Some? ==> CallsFromValue(f, f.fromStr(afterOpen[..end]).value) == []
    case None => true
  }

  predicate NoEmbeddedCalls(f: Formats, afterOpen: string) {
    match f.first(afterOpen)
    case Some((v, end)) => end <= |afterOpen| ==> CallsFromValue(f, v) == []
    case None => true
  }

  lemma FallbackGoesOn(f: Formats, first: string, open: nat, afterOpen: string, r: Recovery)
    requires open < 6 && TagFree(first) && !Contains(afterOpen, CLOSE_TAGS[open]) && Recover(f, afterOpen) == Some(r)
    ensures ParseTags(f, first + (OPEN_TAGS[open] + afterOpen)) == ParseTags(f, r.rest).Before(NonBlank(first), r.calls)
  {
    TurnWithoutCloseTag(f, first, open, afterOpen, r);
    IterateGoesOn(Turns(f), first + (OPEN_TAGS[open] + afterOpen), NonBlank(first), r.calls, r.rest);
  }

  // Next comes the object right behind the tag...
  lemma LeadingCallsAreTaken(f: Formats, first: string, open: nat, afterOpen: string, end: nat, v: Json)
    requires open < 6 && TagFree(first) && !Contains(afterOpen, CLOSE_TAGS[open]) && NoCallsBeforeCloseTag(f, afterOpen)
    requires JsonEnd(afterOpen) == Some(end) && f.fromStr(afterOpen[..end]) == Some(v) && CallsFromValue(f, v) != []
    ensures ParseTags(f, first + (OPEN_TAGS[open] + afterOpen)) ==
            ParseTags(f, StripLeadingCloseTags(afterOpen[end..])).Before(NonBlank(first), CallsFromValue(f, v))
  {
    assert UpToAnyCloseTag(f, afterOpen) == None;
    FallbackGoesOn(f, first, open, afterOpen, Recovery(CallsFromValue(f, v), StripLeadingCloseTags(afterOpen[end..])));
  }

  // ... then the first value embedded anywhere ...
  lemma EmbeddedCallsAreTaken(f: Formats, first: string, open: nat, afterOpen: string, end: nat, v: Json)
    requires open < 6 && TagFree(first) && !Contains(afterOpen, CLOSE_TAGS[open]) && NoCallsBeforeCloseTag(f, afterOpen)
    requires NoLeadingCalls(f, afterOpen)
    requires f.first(afterOpen) == Some((v, end)) && end <= |afterOpen| && CallsFromValue(f, v) != []
    ensures ParseTags(f, first + (OPEN_TAGS[open] + afterOpen)) ==
            ParseTags(f, StripLeadingCloseTags(afterOpen[end..])).Before(NonBlank(first), CallsFromValue(f, v))
  {
    var r := Recovery(CallsFromValue(f, v), StripLeadingCloseTags(afterOpen[end..]));
    NoneBefore(f, afterOpen);
    assert FirstEmbedded(f, afterOpen) == Some(r);
    ThirdFallback(f, afterOpen, r);
    FallbackGoesOn(f, first, open, afterOpen, r);
  }

  lemma NoneBefore(f: Formats, afterOpen: string)
    ensures NoCallsBeforeCloseTag(f, afterOpen) ==> UpToAnyCloseTag(f, afterOpen) == None
    ensures NoLeadingCalls(f, afterOpen) ==> LeadingObject(f, afterOpen) == None
  {
    NoneUpToCloseTag(f, afterOpen);
    NoneLeading(f, afterOpen);
  }

  lemma NoneUpToCloseTag(f: Formats, afterOpen: string)
    ensures NoCallsBeforeCloseTag(f, afterOpen) ==> UpToAnyCloseTag(f, afterOpen) == None
  {
  }

  lemma NoneLeading(f: Formats, afterOpen: string)
    ensures NoLeadingCalls(f, afterOpen) ==> LeadingObject(f, afterOpen) == None
  {
  }

  lemma NoneEmbedded(f: Formats, afterOpen: string)
    ensures NoEmbeddedCalls(f, afterOpen) ==> FirstEmbedded(f, afterOpen) == None
  {
  }

  lemma ThirdFallback(f: Formats, afterOpen: string, r: Recovery)
    requires UpToAnyCloseTag(f, afterOpen) == None && LeadingObject(f, afterOpen) == None && FirstEmbedded(f, afterOpen) == Some(r)
    ensures Recover(f, afterOpen) == Some(r)
  {
  }

  lemma LastFallback(f: Formats, afterOpen: string)
    requires UpToAnyCloseTag(f, afterOpen) == None && LeadingObject(f, afterOpen) == None && FirstEmbedded(f, afterOpen) == None
    ensures Recover(f, afterOpen) ==
            match f.glm(Trim(afterOpen)) { case Some(call) => Some(Recovery([call], "")) case None => None }
  {
  }

  // ... then the short form, which takes all the rest ...
  lemma ShortFormIsTaken(f: Formats, first: string, open: nat, afterOpen: string, call: ToolCall)
    requires open < 6 && TagFree(first) && !Contains(afterOpen, CLOSE_TAGS[open]) && NoCallsBeforeCloseTag(f, afterOpen)
    requires NoLeadingCalls(f, afterOpen) && NoEmbeddedCalls(f, afterOpen) && f.glm(Trim(afterOpen)) == Some(call)
    ensures ParseTags(f, first + (OPEN_TAGS[open] + afterOpen)) == Parsed(NonBlank(first), [call], "")
  {
    NoneBefore(f, afterOpen);
    NoneEmbedded(f, afterOpen);
    LastFallback(f, afterOpen);
    FallbackGoesOn(f, first, open, afterOpen, Recovery([call], ""));
    NothingLeft(f, NonBlank(first), [call]);
  }

  lemma NothingLeft(f: Formats, texts: seq<string>, calls: seq<ToolCall>)
    ensures ParseTags(f, "").Before(texts, calls) == Parsed(texts, calls, "")
  {
    assert TagFree("");
    TurnOnText(f, "");
    IterateStops(Turns(f), "");
  }

  // ... and if nothing helps, the loop stops and leaves the tag in the text.
  lemma NothingIsTaken(f: Formats, first: string, open: nat, afterOpen: string)
    requires open < 6 && TagFree(first) && !Contains(afterOpen, CLOSE_TAGS[open]) && NoCallsBeforeCloseTag(f, afterOpen)
    requires NoLeadingCalls(f, afterOpen) && NoEmbeddedCalls(f, afterOpen) && f.glm(Trim(afterOpen)) == None
    ensures ParseTags(f, first + (OPEN_TAGS[open] + afterOpen)) == Parsed(NonBlank(first), [], OPEN_TAGS[open] + afterOpen)
  {
    NoneBefore(f, afterOpen);
    NoneEmbedded(f, afterOpen);
    LastFallback(f, afterOpen);
    var fromTag := OPEN_TAGS[open] + afterOpen;
    FirstOpenTagIsHere(first, open, afterOpen);
    Halves(first, fromTag);
    Halves(OPEN_TAGS[open], afterOpen);
    GivesUpAtTag(f, first, fromTag, OPEN_TAGS[open], CLOSE_TAGS[open], afterOpen);
    assert OneTurn(f, first + fromTag) == GaveUp(NonBlank(first), fromTag);
    IterateGivesUp(Turns(f), first + fromTag, NonBlank(first), fromTag);
  }

  lemma GivesUpAtTag(f: Formats, before: string, fromTag: string, openTag: string, closeTag: string, afterOpen: string)
    requires openTag <= fromTag && fromTag[|openTag|..] == afterOpen && !Contains(afterOpen, closeTag) && Recover(f, afterOpen) == None
    ensures AtTag(f, before, fromTag, openTag, closeTag) == GaveUp(NonBlank(before), fromTag)
  {
  }

  lemma IterateGivesUp(step: string -> Turn, s: string, text: seq<string>, rest: string)
    requires Shrinks(step) && step(s) == GaveUp(text, rest)
    ensures Iterate(step, s) == Parsed(text, [], rest)
  {
  }

  // A text part is kept trimmed, unless it is blank.
  lemma TextPartIs(text: string)
    ensures NonBlank(text) == if Blank(text) then [] else [Trim(text)]
  {
    TrimIsEmptyIff(text);
  }

  // The text outside printed blocks, piece by piece, trimmed and without blank
  // pieces.
  function Outside(first: string, blocks: seq<Block>): seq<string>
    decreases blocks
  {
    (if Blank(first) then [] else [Trim(first)]) + (if blocks == [] then [] else Outside(blocks[0].after, blocks[1..]))
  }

  // All of that text is kept, the last piece included.
  lemma PrintedTextIsKept(f: Formats, first: string, blocks: seq<Block>)
    requires Printable(first, blocks)
    ensures TextParts(ParseTags(f, Print(first, blocks))) == Outside(first, blocks)
  {
    PrintedBlocksComeBack(f, first, blocks);
    PiecesOutside(first, blocks);
  }

  lemma {:induction false} PiecesOutside(first: string, blocks: seq<Block>)
    ensures TextsBefore(first, blocks) + NonBlank(LastText(first, blocks)) == Outside(first, blocks)
    decreases blocks
  {
    TextPartIs(first);
    if blocks != [] {
      PiecesOutside(blocks[0].after, blocks[1..]);
      Associative(NonBlank(first), TextsBefore(blocks[0].after, blocks[1..]), NonBlank(LastText(first, blocks)));
    }
  }

  // The six tags by their names.
  predicate IsTagOf(name: string, k: nat)
    requires k < 6
  {
    && |OPEN_TAGS[k]| == |name| + 2 && OPEN_TAGS[k][0] == '<' && OPEN_TAGS[k][1..|name| + 1] == name && OPEN_TAGS[k][|name| + 1] == '>'
    && |CLOSE_TAGS[k]| == |name| + 3 && CLOSE_TAGS[k][..2] == "</" && CLOSE_TAGS[k][2..|name| + 2] == name && CLOSE_TAGS[k][|name| + 2] == '>'
  }

  lemma PlainTagsByName()
    ensures IsTagOf("tool_call", 0) && IsTagOf("toolcall", 1) && IsTagOf("tool-call", 2)
  {
  }

  lemma OtherTagsByName()
    ensures IsTagOf("invoke", 3) && IsTagOf("minimax:tool_call", 4) && IsTagOf("minimax:toolcall", 5)
  {
    MinimaxTagByName();
  }

  lemma MinimaxTagByName()
    ensures IsTagOf("minimax:tool_call", 4)
  {
  }
}
