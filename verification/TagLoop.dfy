// The `<tool_call>` tag loop of `parse_tool_calls`.
module TagLoop {
  import opened Wrappers
  import opened Json
  import opened Text
  import opened ToolCalls
  import opened JsonScanner

  const OPEN_TAGS: seq<string> := [
    "<tool_call>", "<toolcall>", "<tool-call>", "<invoke>", "<minimax:tool_call>", "<minimax:toolcall>"]

  const CLOSE_TAGS: seq<string> := [
    "</tool_call>", "</toolcall>", "</tool-call>", "</invoke>", "</minimax:tool_call>", "</minimax:toolcall>"]

  // A tag found in a text: where, and which of the six.
  datatype Hit = Hit(at: nat, tag: nat)

  // `find_first_tag`: the earliest occurrence of any tag, the earlier tag on a tie.
  function FindFirstTag(text: string, tags: seq<string>): (r: Option<Hit>)
    ensures r.Some? ==> r.value.tag < |tags| && Find(text, tags[r.value.tag]) == Some(r.value.at)
    ensures r.Some? ==> forall k | 0 <= k < |tags| :: Find(text, tags[k]).Some? ==> r.value.at <= Find(text, tags[k]).value
    ensures r.None? ==> forall k | 0 <= k < |tags| :: Find(text, tags[k]).None?
  {
    if tags == [] then None
    else
      var init, last := tags[..|tags| - 1], |tags| - 1;
      var earlier := FindFirstTag(text, init);
      match Find(text, tags[last])
      case None => earlier
      case Some(at) => if earlier.Some? && earlier.value.at <= at then earlier else Some(Hit(at, last))
  }

  // `strip_leading_close_tags`.
  function StripLeadingCloseTags(input: string): (r: string)
    ensures IsSuffix(r, input)
    decreases |input|
  {
    var trimmed := TrimStart(input);
    if !("</" <= trimmed) then trimmed
    else
      match Find(trimmed, ">")
      case None => ""
      case Some(end) => StripLeadingCloseTags(trimmed[end + 1..])
  }

  method StripLeadingCloseTagsLoop(input: string) returns (r: string)
    ensures r == StripLeadingCloseTags(input)
  {
    var rest := input;
    while true
      invariant StripLeadingCloseTags(rest) == StripLeadingCloseTags(input)
      decreases |rest|
    {
      var trimmed := TrimStart(rest);
      if !("</" <= trimmed) {
        return trimmed;
      }
      var end := Find(trimmed, ">");
      if end.None? {
        return "";
      }
      rest := trimmed[end.value + 1..];
    }
  }

  // ---------------------------------------------------------- one tag at a time

  function NonBlank(text: string): seq<string> {
    if Trim(text) == "" then [] else [Trim(text)]
  }

  function Flatten<T>(lists: seq<seq<T>>): seq<T> {
    if lists == [] then [] else lists[0] + Flatten(lists[1..])
  }

  // `extract_json_values`: the whole text if it is JSON, else what is embedded in it.
  function ExtractValues(f: Formats, inner: string): seq<Json> {
    var trimmed := Trim(inner);
    if trimmed == "" then []
    else if f.fromStr(trimmed).Some? then [f.fromStr(trimmed).value]
    else f.stream(trimmed)
  }

  function CallsFromValues(f: Formats, values: seq<Json>): seq<ToolCall> {
    if values == [] then [] else CallsFromValue(f, values[0]) + CallsFromValues(f, values[1..])
  }

  // Calls in the body of a tag: JSON first, then nested XML, then the short form.
  function CallsIn(f: Formats, inner: string): seq<ToolCall> {
    var json := CallsFromValues(f, ExtractValues(f, inner));
    if json != [] then json
    else if f.xml(inner) != [] then f.xml(inner)
    else match f.glm(inner) case Some(call) => [call] case None => []
  }

  datatype Recovery = Recovery(calls: seq<ToolCall>, rest: string)

  // Nothing is recovered from a place that yields no call.
  function IfAny(calls: seq<ToolCall>, rest: string): Option<Recovery> {
    if calls != [] then Some(Recovery(calls, rest)) else None
  }

  // A body that ends at some other close tag.
  function UpToAnyCloseTag(f: Formats, afterOpen: string): (r: Option<Recovery>)
    ensures r.Some? ==> IsSuffix(r.value.rest, afterOpen)
  {
    match FindFirstTag(afterOpen, CLOSE_TAGS)
    case Some(hit) => IfAny(CallsIn(f, afterOpen[..hit.at]), afterOpen[hit.at + |CLOSE_TAGS[hit.tag]|..])
    case None => None
  }

  lemma StrippedIsSuffix(text: string, end: nat)
    requires end <= |text|
    ensures IsSuffix(StripLeadingCloseTags(text[end..]), text)
  {
    DropIsSuffix(text, end);
    SuffixTransitive(StripLeadingCloseTags(text[end..]), text[end..], text);
  }

  // A JSON object right after the tag, found by balancing braces.
  function LeadingObject(f: Formats, afterOpen: string): (r: Option<Recovery>)
    ensures r.Some? ==> IsSuffix(r.value.rest, afterOpen)
  {
    match JsonEnd(afterOpen)
    case Some(end) =>
      StrippedIsSuffix(afterOpen, end);
      var v :- f.fromStr(afterOpen[..end]);
      IfAny(CallsFromValue(f, v), StripLeadingCloseTags(afterOpen[end..]))
    case None => None
  }

  // The first JSON value anywhere after the tag.
  function FirstEmbedded(f: Formats, afterOpen: string): (r: Option<Recovery>)
    ensures r.Some? ==> IsSuffix(r.value.rest, afterOpen)
  {
    match f.first(afterOpen)
    case Some((v, end)) =>
      if end <= |afterOpen| then
        StrippedIsSuffix(afterOpen, end);
        IfAny(CallsFromValue(f, v), StripLeadingCloseTags(afterOpen[end..]))
      else None
    case None => None
  }

  function ShortForm(f: Formats, afterOpen: string): Option<Recovery> {
    match f.glm(Trim(afterOpen))
    case Some(call) => Some(Recovery([call], ""))
    case None => None
  }

  // No matching close tag: the fallbacks in the order they are tried.
  function Recover(f: Formats, afterOpen: string): (r: Option<Recovery>)
    ensures r.Some? ==> IsSuffix(r.value.rest, afterOpen)
  {
    OrElse(UpToAnyCloseTag(f, afterOpen),
           OrElse(LeadingObject(f, afterOpen), OrElse(FirstEmbedded(f, afterOpen), ShortForm(f, afterOpen))))
  }

  // What one pass of the loop does: push at most one text and some calls and go
  // on with a shorter text, or stop.
  datatype Turn =
    | Finished(rest: string)
    | GaveUp(text: seq<string>, rest: string)
    | Pushed(text: seq<string>, calls: seq<ToolCall>, rest: string)

  function OneTurn(f: Formats, remaining: string): (t: Turn)
    ensures t.Pushed? ==> |t.rest| < |remaining|
  {
    match FindFirstTag(remaining, OPEN_TAGS)
    case None => Finished(remaining)
    case Some(hit) =>
      TagsAreBracketed(hit.tag);
      AtTag(f, remaining[..hit.at], remaining[hit.at..], OPEN_TAGS[hit.tag], CLOSE_TAGS[hit.tag])
  }

  // The turn at a text that starts with an opening tag.
  function AtTag(f: Formats, before: string, fromTag: string, openTag: string, closeTag: string): (t: Turn)
    requires openTag <= fromTag
    ensures !t.Finished? && t.text == NonBlank(before)
    ensures if t.GaveUp? then t.rest == fromTag else IsSuffix(t.rest, fromTag[|openTag|..])
  {
    var afterOpen := fromTag[|openTag|..];
    match Find(afterOpen, closeTag)
    case Some(end) => Pushed(NonBlank(before), CallsIn(f, afterOpen[..end]), afterOpen[end + |closeTag|..])
    case None =>
      match Recover(f, afterOpen)
      case Some(r) => Pushed(NonBlank(before), r.calls, r.rest)
      case None => GaveUp(NonBlank(before), fromTag)
  }

  // Every tag starts with the only "<" in it and ends with the only ">" in it.
  predicate IsTag(tag: string) {
    && |tag| >= 2 && tag[0] == '<' && tag[|tag| - 1] == '>'
    && (forall i | 1 <= i < |tag| :: tag[i] != '<')
    && (forall i | 0 <= i < |tag| - 1 :: tag[i] != '>')
  }

  lemma TagsAreBracketed(k: nat)
    requires k < 6
    ensures IsTag(OPEN_TAGS[k]) && IsTag(CLOSE_TAGS[k])
  {
  }

  // What the loop has pushed when it stops, and the text it leaves over.
  datatype Parsed = Parsed(texts: seq<string>, calls: seq<ToolCall>, rest: string) {
    function Before(texts0: seq<string>, calls0: seq<ToolCall>): Parsed {
      Parsed(texts0 + texts, calls0 + calls, rest)
    }
  }

  ghost predicate Shrinks(step: string -> Turn) {
    forall s :: step(s).Pushed? ==> |step(s).rest| < |s|
  }

  // Turns until one finishes or gives up.
  ghost function Iterate(step: string -> Turn, remaining: string): Parsed
    requires Shrinks(step)
    decreases |remaining|
  {
    match step(remaining)
    case Finished(rest) => Parsed([], [], rest)
    case GaveUp(text, rest) => Parsed(text, [], rest)
    case Pushed(text, calls, rest) => Iterate(step, rest).Before(text, calls)
  }

  function Turns(f: Formats): (step: string -> Turn)
    ensures Shrinks(step)
  {
    s => OneTurn(f, s)
  }

  ghost function ParseTags(f: Formats, remaining: string): Parsed {
    Iterate(Turns(f), remaining)
  }

  // All text parts: those pushed by the loop and the trimmed leftover.
  function TextParts(p: Parsed): seq<string> {
    p.texts + NonBlank(p.rest)
  }

  // The loop itself: it pushes texts and calls and shortens `remaining`.
  method RunTurns(step: string -> Turn, response: string)
    returns (texts: seq<string>, calls: seq<ToolCall>, remaining: string)
    requires Shrinks(step)
    ensures Parsed(texts, calls, remaining) == Iterate(step, response)
  {
    texts, calls, remaining := [], [], response;
    NothingBefore(Iterate(step, response));
    while true
      invariant Iterate(step, remaining).Before(texts, calls) == Iterate(step, response)
      decreases |remaining|
    {
      match step(remaining)
      case Finished(rest) =>
        StoppedAfter(texts, calls, [], rest);
        remaining := rest;
        return;
      case GaveUp(text, rest) =>
        StoppedAfter(texts, calls, text, rest);
        texts, remaining := texts + text, rest;
        return;
      case Pushed(text, found, rest) =>
        BeforeTwice(Iterate(step, rest), texts, text, calls, found);
        texts, calls, remaining := texts + text, calls + found, rest;
    }
  }

  method RunTagLoop(f: Formats, response: string) returns (texts: seq<string>, calls: seq<ToolCall>, remaining: string)
    ensures Parsed(texts, calls, remaining) == ParseTags(f, response)
  {
    texts, calls, remaining := RunTurns(Turns(f), response);
  }

  lemma NothingBefore(p: Parsed)
    ensures p.Before([], []) == p
  {
  }

  lemma StoppedAfter(texts0: seq<string>, calls0: seq<ToolCall>, text: seq<string>, rest: string)
    ensures Parsed(text, [], rest).Before(texts0, calls0) == Parsed(texts0 + text, calls0, rest)
    ensures texts0 + [] == texts0
  {
  }

  lemma BeforeTwice(p: Parsed, texts0: seq<string>, texts: seq<string>, calls0: seq<ToolCall>, calls: seq<ToolCall>)
    ensures p.Before(texts, calls).Before(texts0, calls0) == p.Before(texts0 + texts, calls0 + calls)
  {
    assert texts0 + (texts + p.texts) == (texts0 + texts) + p.texts;
    assert calls0 + (calls + p.calls) == (calls0 + calls) + p.calls;
  }
}
