// The brace-balancing scanner `find_json_end` against the grammar of RFC 8259.
module JsonScanner {
  import opened Wrappers
  import opened Text

  // ---------------------------------------------------------------- scanner

  function After(end: Option<nat>, skipped: nat): Option<nat> {
    match end
    case Some(n) => Some(skipped + n)
    case None => None
  }

  datatype State = State(depth: int, inString: bool, escapeNext: bool)

  // `ch` is the brace that brings the depth to zero.
  predicate Closes(st: State, ch: char) {
    !st.escapeNext && !st.inString && ch == '}' && st.depth - 1 == 0
  }

  function Next(st: State, ch: char): State {
    if st.escapeNext then st.(escapeNext := false)
    else if ch == '\\' && st.inString then st.(escapeNext := true)
    else if ch == '"' then st.(inString := !st.inString)
    else if ch == '{' && !st.inString then st.(depth := st.depth + 1)
    else if ch == '}' && !st.inString then st.(depth := st.depth - 1)
    else st
  }

  // Number of characters up to and including the brace that brings the depth
  // to zero, from a given scanner state.
  function ScanEnd(s: string, st: State): (r: Option<nat>)
    ensures r.Some? ==> 0 < r.value <= |s| && s[r.value - 1] == '}'
  {
    if s == [] then None
    else if Closes(st, s[0]) then Some(1)
    else After(ScanEnd(s[1..], Next(st, s[0])), 1)
  }

  function Outside(depth: int): State {
    State(depth, false, false)
  }

  function Inside(depth: int): State {
    State(depth, true, false)
  }

  // End of the leading JSON object in characters, if there is one.
  function JsonEnd(input: string): (r: Option<nat>)
    ensures r.Some? ==> 0 < r.value <= |input| && input[r.value - 1] == '}'
  {
    var trimmed := TrimStart(input);
    if "{" <= trimmed then After(ScanEnd(trimmed, Outside(0)), |input| - |trimmed|) else None
  }

  // State after reading all of `t`, if the object does not end inside it.
  function Run(t: string, st: State): Option<State> {
    if t == [] then Some(st)
    else if Closes(st, t[0]) then None
    else Run(t[1..], Next(st, t[0]))
  }

  // Reading `t` takes the scanner from one state to another without closing.
  predicate Moves(t: string, from: State, to: State) {
    Run(t, from) == Some(to)
  }

  // Reading `t` leaves the scanner in the state it started in.
  predicate Passes(t: string, st: State) {
    Moves(t, st, st)
  }

  lemma MovesChar(t: string, st: State)
    requires |t| == 1 && !Closes(st, t[0])
    ensures Moves(t, st, Next(st, t[0]))
  {
    assert t[1..] == [];
  }

  lemma {:induction false} MovesConcat(a: string, b: string, from: State, mid: State, to: State)
    requires Moves(a, from, mid) && Moves(b, mid, to)
    ensures Moves(a + b, from, to)
  {
    if a == [] {
      assert a + b == b;
    } else {
      assert (a + b)[1..] == a[1..] + b;
      MovesConcat(a[1..], b, Next(from, a[0]), mid, to);
    }
  }

  // The scanner's answer after a prefix that does not end the object.
  lemma {:induction false} ScanAfter(t: string, rest: string, from: State, to: State)
    requires Moves(t, from, to)
    ensures ScanEnd(t + rest, from) == After(ScanEnd(rest, to), |t|)
  {
    if t == [] {
      assert t + rest == rest;
    } else {
      assert (t + rest)[1..] == t[1..] + rest;
      ScanAfter(t[1..], rest, Next(from, t[0]), to);
    }
  }

  lemma ClosesAtBrace(t: string, from: State, rest: string)
    requires Moves(t, from, Outside(1))
    ensures ScanEnd(t + ("}" + rest), from) == Some(|t| + 1)
  {
    ScanAfter(t, "}" + rest, from, Outside(1));
  }

  lemma OpenAtEnd(t: string, from: State, to: State)
    requires Moves(t, from, to)
    ensures ScanEnd(t, from) == None
  {
    ScanAfter(t, "", from, to);
    assert t + "" == t;
  }

  // `find_json_end`; the offset it reports counts bytes.
  method FindJsonEnd(input: string) returns (end: Option<nat>)
    ensures end == match JsonEnd(input) case Some(n) => Some(ByteLength(input[..n])) case None => None
  {
    var trimmed := TrimStart(input);
    var offset := ByteLength(input) - ByteLength(trimmed);
    if !("{" <= trimmed) {
      return None;
    }
    var scanned := ScanChars(trimmed);
    if scanned.None? {
      return None;
    }
    ghost var n := ScanEnd(trimmed, Outside(0)).value;
    OffsetInSuffix(input, trimmed, n, |input| - |trimmed| + n);
    return Some(offset + scanned.value);
  }

  // The loop over `char_indices`.
  method ScanChars(trimmed: string) returns (end: Option<nat>)
    ensures end == match ScanEnd(trimmed, Outside(0)) case Some(n) => Some(ByteLength(trimmed[..n])) case None => None
  {
    var depth, inString, escapeNext := 0, false, false;
    var i, k := 0, 0;
    while k < |trimmed|
      invariant k <= |trimmed|
      invariant i == ByteLength(trimmed[..k])
      invariant Moves(trimmed[..k], Outside(0), State(depth, inString, escapeNext))
    {
      var ch := trimmed[k];
      ghost var st := State(depth, inString, escapeNext);
      PushChar(trimmed, k, st);
      if escapeNext {
        escapeNext := false;
      } else if ch == '\\' && inString {
        escapeNext := true;
      } else if ch == '"' {
        inString := !inString;
      } else if ch == '{' && !inString {
        depth := depth + 1;
      } else if ch == '}' && !inString {
        depth := depth - 1;
        if depth == 0 {
          ScanClosesAt(trimmed, k);
          return Some(i + Utf8Length(ch));
        }
      }
      assert State(depth, inString, escapeNext) == Next(st, ch);
      i := i + Utf8Length(ch);
      k := k + 1;
    }
    assert trimmed[..k] == trimmed;
    OpenAtEnd(trimmed, Outside(0), State(depth, inString, escapeNext));
    return None;
  }

  lemma PushChar(s: string, k: nat, st: State)
    requires k < |s| && Moves(s[..k], Outside(0), st)
    ensures ByteLength(s[..k + 1]) == ByteLength(s[..k]) + Utf8Length(s[k])
    ensures !Closes(st, s[k]) ==> Moves(s[..k + 1], Outside(0), Next(st, s[k]))
  {
    ByteLengthPush(s, k);
    assert s[..k + 1] == s[..k] + [s[k]];
    if !Closes(st, s[k]) {
      MovesChar([s[k]], st);
      MovesConcat(s[..k], [s[k]], Outside(0), st, Next(st, s[k]));
    }
  }

  lemma ScanClosesAt(trimmed: string, k: nat)
    requires k < |trimmed| && trimmed[k] == '}'
    requires Moves(trimmed[..k], Outside(0), Outside(1))
    ensures ScanEnd(trimmed, Outside(0)) == Some(k + 1)
  {
    SplitAround(trimmed, k);
    ClosesAtBrace(trimmed[..k], Outside(0), trimmed[k + 1..]);
  }

  lemma SplitAround(s: string, k: nat)
    requires k < |s| && s[k] == '}'
    ensures s == s[..k] + ("}" + s[k + 1..])
  {
  }

  lemma ByteLengthPush(s: string, k: nat)
    requires k < |s|
    ensures ByteLength(s[..k + 1]) == ByteLength(s[..k]) + Utf8Length(s[k])
  {
    assert s[..k + 1] == s[..k] + [s[k]];
    ByteLengthAppend(s[..k], [s[k]]);
  }

  // Offsets in a suffix are offsets in the whole shifted by what was trimmed.
  lemma OffsetInSuffix(s: string, suffix: string, n: nat, end: nat)
    requires |suffix| <= |s| && suffix == s[|s| - |suffix|..]
    requires n <= |suffix| && end == |s| - |suffix| + n
    ensures ByteLength(s[..end]) == ByteLength(s) - ByteLength(suffix) + ByteLength(suffix[..n])
  {
    var blank := s[..|s| - |suffix|];
    SplitAt(s, |blank|);
    ByteLengthAppend(blank, suffix);
    PrefixOfSplit(s, |blank|, n);
    ByteLengthAppend(blank, suffix[..n]);
  }

  // ---------------------------------------------------------------- grammar

  datatype StringChar =
    | Plain(c: char)
    | Escaped(c: char)
    | Unicode(h0: char, h1: char, h2: char, h3: char)

  datatype Exponent = NoExponent | Exponent(mark: char, sign: string, digits: string)

  datatype Value =
    | Literal(name: string)
    | Number(minus: bool, digits: string, fraction: string, exponent: Exponent)
    | String(chars: seq<StringChar>)
    | Array(blank: string, elements: seq<Element>)
    | Object(blank: string, members: seq<Member>)

  // Structural characters may be surrounded by insignificant whitespace.
  datatype Element = Element(before: string, value: Value, after: string)

  datatype Member = Member(before: string, name: seq<StringChar>, mid: string, after: string, value: Value, trail: string)

  // Section 2 of RFC 8259.
  predicate IsWs(s: string) {
    forall i | 0 <= i < |s| :: s[i] == ' ' || s[i] == '\t' || s[i] == '\n' || s[i] == '\r'
  }

  predicate IsDigit(c: char) {
    '0' <= c <= '9'
  }

  predicate IsHex(c: char) {
    IsDigit(c) || 'a' <= c <= 'f' || 'A' <= c <= 'F'
  }

  predicate AreDigits(s: string) {
    s != [] && forall i | 0 <= i < |s| :: IsDigit(s[i])
  }

  // Section 7 of RFC 8259.
  predicate ValidChar(ch: StringChar) {
    match ch
    case Plain(c) => c >= ' ' && c != '"' && c != '\\'
    case Escaped(c) => c in {'"', '\\', '/', 'b', 'f', 'n', 'r', 't'}
    case Unicode(h0, h1, h2, h3) => IsHex(h0) && IsHex(h1) && IsHex(h2) && IsHex(h3)
  }

  predicate ValidChars(chars: seq<StringChar>) {
    forall i | 0 <= i < |chars| :: ValidChar(chars[i])
  }

  // Section 6 of RFC 8259.
  predicate ValidNumber(v: Value)
    requires v.Number?
  {
    && AreDigits(v.digits) && (v.digits[0] == '0' ==> |v.digits| == 1)
    && (v.fraction == "" || (v.fraction[0] == '.' && AreDigits(v.fraction[1..])))
    && (v.exponent.Exponent? ==>
         (v.exponent.mark == 'e' || v.exponent.mark == 'E') && v.exponent.sign in {"", "+", "-"} && AreDigits(v.exponent.digits))
  }

  predicate ValidValue(v: Value) {
    match v
    case Literal(name) => name == "true" || name == "false" || name == "null"
    case Number(_, _, _, _) => ValidNumber(v)
    case String(chars) => ValidChars(chars)
    case Array(blank, elements) =>
      && IsWs(blank)
      && forall i | 0 <= i < |elements| ::
           IsWs(elements[i].before) && ValidValue(elements[i].value) && IsWs(elements[i].after)
    case Object(blank, members) =>
      && IsWs(blank)
      && forall i | 0 <= i < |members| :: ValidMember(members[i])
  }

  predicate ValidMember(m: Member) {
    IsWs(m.before) && ValidChars(m.name) && IsWs(m.mid) && IsWs(m.after) && ValidValue(m.value) && IsWs(m.trail)
  }

  function CharText(ch: StringChar): string {
    match ch
    case Plain(c) => [c]
    case Escaped(c) => ['\\', c]
    case Unicode(h0, h1, h2, h3) => ['\\', 'u', h0, h1, h2, h3]
  }

  function CharsText(chars: seq<StringChar>): string {
    if chars == [] then "" else CharText(chars[0]) + CharsText(chars[1..])
  }

  function StringText(chars: seq<StringChar>): string {
    "\"" + (CharsText(chars) + "\"")
  }

  function NumberText(v: Value): string
    requires v.Number?
  {
    (if v.minus then "-" else "") + v.digits + v.fraction +
    (match v.exponent case NoExponent => "" case Exponent(mark, sign, digits) => [mark] + sign + digits)
  }

  function ValueText(v: Value): string {
    match v
    case Literal(name) => name
    case Number(_, _, _, _) => NumberText(v)
    case String(chars) => StringText(chars)
    case Array(blank, elements) => "[" + ((if elements == [] then blank else ElementsText(elements)) + "]")
    case Object(blank, members) => "{" + ((if members == [] then blank else MembersText(members)) + "}")
  }

  function ElementsText(elements: seq<Element>): string {
    if elements == [] then ""
    else
      var e := elements[0];
      (e.before + (ValueText(e.value) + e.after)) +
      (if |elements| == 1 then "" else "," + ElementsText(elements[1..]))
  }

  function MemberText(m: Member): string {
    m.before + (StringText(m.name) + ((m.mid + (":" + m.after)) + (ValueText(m.value) + m.trail)))
  }

  function MembersText(members: seq<Member>): string {
    if members == [] then ""
    else MemberText(members[0]) + (if |members| == 1 then "" else "," + MembersText(members[1..]))
  }

  // -------------------------------------------------- the scanner on the grammar

  lemma PassesConcat(a: string, b: string, st: State)
    requires Passes(a, st) && Passes(b, st)
    ensures Passes(a + b, st)
  {
    MovesConcat(a, b, st, st, st);
  }

  predicate Quiet(s: string, inString: bool) {
    forall i | 0 <= i < |s| :: s[i] != '"' && (if inString then s[i] != '\\' else s[i] != '{' && s[i] != '}')
  }

  lemma {:induction false} QuietPasses(s: string, st: State)
    requires !st.escapeNext && Quiet(s, st.inString)
    ensures Passes(s, st)
  {
    if s == [] {
    } else {
      MovesChar([s[0]], st);
      QuietPasses(s[1..], st);
      MovesConcat([s[0]], s[1..], st, st, st);
      assert s == [s[0]] + s[1..];
    }
  }

  // An escape consumes exactly the character after the backslash.
  lemma EscapePasses(c: char, depth: int)
    ensures Passes(['\\', c], Inside(depth))
  {
    MovesChar(['\\'], Inside(depth));
    MovesChar([c], Inside(depth).(escapeNext := true));
    MovesConcat(['\\'], [c], Inside(depth), Inside(depth).(escapeNext := true), Inside(depth));
    assert ['\\', c] == ['\\'] + [c];
  }

  lemma CharPasses(ch: StringChar, depth: int)
    requires ValidChar(ch)
    ensures Passes(CharText(ch), Inside(depth))
  {
    match ch
    case Plain(c) => QuietPasses([c], Inside(depth));
    case Escaped(c) => EscapePasses(c, depth);
    case Unicode(h0, h1, h2, h3) =>
      EscapePasses('u', depth);
      QuietPasses([h0, h1, h2, h3], Inside(depth));
      PassesConcat(['\\', 'u'], [h0, h1, h2, h3], Inside(depth));
      assert CharText(ch) == ['\\', 'u'] + [h0, h1, h2, h3];
  }

  lemma {:induction false} CharsPass(chars: seq<StringChar>, depth: int)
    requires ValidChars(chars)
    ensures Passes(CharsText(chars), Inside(depth))
  {
    if chars == [] {
      QuietPasses("", Inside(depth));
    } else {
      CharPasses(chars[0], depth);
      CharsPass(chars[1..], depth);
      PassesConcat(CharText(chars[0]), CharsText(chars[1..]), Inside(depth));
    }
  }

  lemma StringPasses(chars: seq<StringChar>, depth: int)
    requires ValidChars(chars)
    ensures Passes(StringText(chars), Outside(depth))
  {
    CharsPass(chars, depth);
    MovesChar("\"", Outside(depth));
    MovesChar("\"", Inside(depth));
    MovesConcat(CharsText(chars), "\"", Inside(depth), Inside(depth), Outside(depth));
    MovesConcat("\"", CharsText(chars) + "\"", Outside(depth), Inside(depth), Outside(depth));
  }

  lemma WsIsQuiet(s: string)
    requires IsWs(s)
    ensures Quiet(s, false) && Blank(s)
  {
  }

  lemma NumberIsQuiet(v: Value)
    requires v.Number? && ValidNumber(v)
    ensures Quiet(NumberText(v), false)
  {
    assert v.fraction == "" || v.fraction == ['.'] + v.fraction[1..];
  }

  // Inside an enclosing object the scanner passes over every value.
  lemma {:induction false} ValuePasses(v: Value, depth: int)
    requires ValidValue(v) && depth >= 1
    ensures Passes(ValueText(v), Outside(depth))
    decreases v, 1
  {
    match v
    case Literal(name) => QuietPasses(name, Outside(depth));
    case Number(_, _, _, _) =>
      NumberIsQuiet(v);
      QuietPasses(NumberText(v), Outside(depth));
    case String(chars) => StringPasses(chars, depth);
    case Array(blank, elements) =>
      var inner := if elements == [] then blank else ElementsText(elements);
      if elements == [] {
        WsIsQuiet(blank);
        QuietPasses(blank, Outside(depth));
      } else {
        ElementsPass(elements, depth);
      }
      QuietPasses("[", Outside(depth));
      QuietPasses("]", Outside(depth));
      PassesConcat(inner, "]", Outside(depth));
      PassesConcat("[", inner + "]", Outside(depth));
    case Object(blank, members) =>
      ObjectBodyPasses(blank, members, depth + 1);
      OpenedObject(v, depth);
      MovesChar("}", Outside(depth + 1));
      var body := ObjectBody(blank, members);
      MovesConcat("{" + body, "}", Outside(depth), Outside(depth + 1), Outside(depth));
      Associative("{", body, "}");
  }

  function ObjectBody(blank: string, members: seq<Member>): string {
    if members == [] then blank else MembersText(members)
  }

  lemma {:induction false} ObjectBodyPasses(blank: string, members: seq<Member>, depth: int)
    requires IsWs(blank) && (forall i | 0 <= i < |members| :: ValidMember(members[i])) && depth >= 1
    ensures Passes(ObjectBody(blank, members), Outside(depth))
    decreases members, 1
  {
    if members == [] {
      WsIsQuiet(blank);
      QuietPasses(blank, Outside(depth));
    } else {
      MembersPass(members, depth);
    }
  }

  // From any depth, the opening brace and the body lead one level down.
  lemma OpenedObject(v: Value, depth: int)
    requires v.Object? && Passes(ObjectBody(v.blank, v.members), Outside(depth + 1))
    ensures Moves("{" + ObjectBody(v.blank, v.members), Outside(depth), Outside(depth + 1))
  {
    MovesChar("{", Outside(depth));
    MovesConcat("{", ObjectBody(v.blank, v.members), Outside(depth), Outside(depth + 1), Outside(depth + 1));
  }

  lemma {:induction false} ElementsPass(elements: seq<Element>, depth: int)
    requires forall i | 0 <= i < |elements| ::
               IsWs(elements[i].before) && ValidValue(elements[i].value) && IsWs(elements[i].after)
    requires depth >= 1
    ensures Passes(ElementsText(elements), Outside(depth))
    decreases elements, 0
  {
    if elements == [] {
      QuietPasses("", Outside(depth));
    } else {
      var e := elements[0];
      WsIsQuiet(e.before);
      WsIsQuiet(e.after);
      QuietPasses(e.before, Outside(depth));
      QuietPasses(e.after, Outside(depth));
      ValuePasses(e.value, depth);
      PassesConcat(ValueText(e.value), e.after, Outside(depth));
      PassesConcat(e.before, ValueText(e.value) + e.after, Outside(depth));
      var first := e.before + (ValueText(e.value) + e.after);
      if |elements| == 1 {
        assert ElementsText(elements) == first;
      } else {
        ElementsPass(elements[1..], depth);
        QuietPasses(",", Outside(depth));
        PassesConcat(",", ElementsText(elements[1..]), Outside(depth));
        PassesConcat(first, "," + ElementsText(elements[1..]), Outside(depth));
      }
    }
  }

  lemma {:induction false} MemberPasses(m: Member, depth: int)
    requires ValidMember(m) && depth >= 1
    ensures Passes(MemberText(m), Outside(depth))
    decreases m, 0
  {
    WsIsQuiet(m.before);
    WsIsQuiet(m.mid);
    WsIsQuiet(m.after);
    WsIsQuiet(m.trail);
    QuietPasses(m.before, Outside(depth));
    StringPasses(m.name, depth);
    var colon := m.mid + (":" + m.after);
    QuietPasses(colon, Outside(depth));
    ValuePasses(m.value, depth);
    QuietPasses(m.trail, Outside(depth));
    var tail := ValueText(m.value) + m.trail;
    PassesConcat(ValueText(m.value), m.trail, Outside(depth));
    PassesConcat(colon, tail, Outside(depth));
    PassesConcat(StringText(m.name), colon + tail, Outside(depth));
    PassesConcat(m.before, StringText(m.name) + (colon + tail), Outside(depth));
  }

  lemma {:induction false} MembersPass(members: seq<Member>, depth: int)
    requires (forall i | 0 <= i < |members| :: ValidMember(members[i])) && depth >= 1
    ensures Passes(MembersText(members), Outside(depth))
    decreases members, 0
  {
    if members == [] {
      QuietPasses("", Outside(depth));
    } else {
      MemberPasses(members[0], depth);
      if |members| == 1 {
        assert MembersText(members) == MemberText(members[0]);
      } else {
        MembersPass(members[1..], depth);
        QuietPasses(",", Outside(depth));
        PassesConcat(",", MembersText(members[1..]), Outside(depth));
        PassesConcat(MemberText(members[0]), "," + MembersText(members[1..]), Outside(depth));
      }
    }
  }

  lemma ObjectAfterBlank(blank: string, t: string)
    requires Blank(blank) && "{" <= t
    ensures JsonEnd(blank + t) == After(ScanEnd(t, Outside(0)), |blank|)
  {
    TrimStartSkipsBlank(blank, t);
    BraceIsNotTrimmed(t);
    EndInTrimmed(blank + t, t);
  }

  lemma BraceIsNotTrimmed(t: string)
    requires "{" <= t
    ensures TrimStart(t) == t
  {
    assert t[0] == '{' && !IsWhitespace(t[0]);
  }

  lemma EndInTrimmed(input: string, t: string)
    requires TrimStart(input) == t && "{" <= t
    ensures JsonEnd(input) == After(ScanEnd(t, Outside(0)), |input| - |t|)
  {
  }

  lemma ObjectEnds(body: string, rest: string)
    requires Passes(body, Outside(1))
    ensures ScanEnd("{" + (body + ("}" + rest)), Outside(0)) == Some(|body| + 2)
  {
    MovesChar("{", Outside(0));
    MovesConcat("{", body, Outside(0), Outside(1), Outside(1));
    ClosesAtBrace("{" + body, Outside(0), rest);
    Associative("{", body, "}" + rest);
  }

  lemma ObjectText(v: Value, rest: string)
    requires v.Object? && ValidValue(v)
    ensures var body := ObjectBody(v.blank, v.members);
            && ValueText(v) + rest == "{" + (body + ("}" + rest))
            && |ValueText(v)| == |body| + 2
            && Passes(body, Outside(1))
  {
    ObjectBodyPasses(v.blank, v.members, 1);
    Bracketed("{", ObjectBody(v.blank, v.members), "}", rest);
  }

  lemma EndsAfterBlank(blank: string, body: string, rest: string)
    requires Blank(blank) && Passes(body, Outside(1))
    ensures JsonEnd(blank + ("{" + (body + ("}" + rest)))) == Some(|blank| + (|body| + 2))
  {
    ObjectEnds(body, rest);
    ObjectAfterBlank(blank, "{" + (body + ("}" + rest)));
  }

  // Main result: leading whitespace, any object text of the grammar, any text
  // after it; the scanner reports exactly the end of the object.
  lemma ScannerFindsObject(blank: string, v: Value, rest: string)
    requires Blank(blank) && v.Object? && ValidValue(v)
    ensures JsonEnd(blank + (ValueText(v) + rest)) == Some(|blank| + |ValueText(v)|)
  {
    ObjectText(v, rest);
    EndsAfterBlank(blank, ObjectBody(v.blank, v.members), rest);
  }

  // A text cut off inside the object is not taken for a complete one.
  lemma ScannerRejectsUnclosed(blank: string, ws: string, members: seq<Member>)
    requires Blank(blank) && IsWs(ws) && forall i | 0 <= i < |members| :: ValidMember(members[i])
    ensures JsonEnd(blank + ("{" + ObjectBody(ws, members))) == None
  {
    var t := "{" + ObjectBody(ws, members);
    ObjectAfterBlank(blank, t);
    ObjectBodyPasses(ws, members, 1);
    OpenedObject(Object(ws, members), 0);
    OpenAtEnd(t, Outside(0), Outside(1));
  }
}
