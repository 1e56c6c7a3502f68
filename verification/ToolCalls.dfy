// Tool calls inside JSON values: `parse_tool_call_value` and its callers.
module ToolCalls {
  import opened Wrappers
  import opened Json
  import opened Text

  datatype ToolCall = ToolCall(name: string, arguments: Json, id: Option<string>)

  // The parts of the parser this model does not look into: serde_json and the
  // formats nested inside a tag body.
  datatype Formats = Formats(
    fromStr: string -> Option<Json>,            // serde_json::from_str
    stream: string -> seq<Json>,                // JSON values embedded in other text
    first: string -> Option<(Json, nat)>,       // first embedded value and where it ends
    xml: string -> seq<ToolCall>,               // nested XML calls, none for a mismatch
    glm: string -> Option<ToolCall>)            // shortened `tool>argument` body

  // `Value::get` with a member name.
  function Get(v: Json, key: string): Option<Json> {
    if v.Obj? && key in v.fields then Some(v.fields[key]) else None
  }

  function OrElse<T>(a: Option<T>, b: Option<T>): Option<T> {
    if a.Some? then a else b
  }

  function AsTrimmed(v: Option<Json>): string {
    if v.Some? && v.value.Str? then Trim(v.value.s) else ""
  }

  function ParseArguments(f: Formats, raw: Option<Json>): Json {
    match raw
    case Some(Str(s)) => f.fromStr(s).GetOr(Obj(map[]))
    case Some(v) => v
    case None => Obj(map[])
  }

  function ParseCallId(root: Json, function_: Option<Json>): Option<string> {
    var inner := if function_.Some? then Get(function_.value, "id") else None;
    var id := AsTrimmed(OrElse(inner, OrElse(Get(root, "id"), OrElse(Get(root, "tool_call_id"), Get(root, "call_id")))));
    if id == "" then None else Some(id)
  }

  // The object that carries name and arguments, with the identifier found for it.
  function CallFrom(f: Formats, carrier: Json, id: Option<string>): Option<ToolCall> {
    var name := AsTrimmed(Get(carrier, "name"));
    if name == "" then None
    else Some(ToolCall(name, ParseArguments(f, OrElse(Get(carrier, "arguments"), Get(carrier, "parameters"))), id))
  }

  function ParseCallValue(f: Formats, v: Json): Option<ToolCall> {
    var function_ := Get(v, "function");
    var nested := if function_.Some? then CallFrom(f, function_.value, ParseCallId(v, function_)) else None;
    OrElse(nested, CallFrom(f, v, ParseCallId(v, None)))
  }

  // Elements that parse, in order.
  function Collect<T, U>(parse: T -> Option<U>, items: seq<T>): seq<U> {
    if items == [] then []
    else
      var first := parse(items[0]);
      if first.Some? then [first.value] + Collect(parse, items[1..]) else Collect(parse, items[1..])
  }

  lemma {:induction false} CollectPush<T, U>(parse: T -> Option<U>, items: seq<T>, v: T)
    ensures Collect(parse, items + [v]) == if parse(v).Some? then Collect(parse, items) + [parse(v).value] else Collect(parse, items)
  {
    if items == [] {
      assert items + [v] == [v];
    } else {
      assert (items + [v])[1..] == items[1..] + [v] && (items + [v])[0] == items[0];
      CollectPush(parse, items[1..], v);
      if parse(items[0]).Some? && parse(v).Some? {
        Associative([parse(items[0]).value], Collect(parse, items[1..]), [parse(v).value]);
      }
    }
  }

  // If printing `outs` gave `items` and each item parses back, all of them do.
  lemma {:induction false} CollectInverts<T, U>(parse: T -> Option<U>, items: seq<T>, outs: seq<U>)
    requires |items| == |outs| && forall i | 0 <= i < |items| :: parse(items[i]) == Some(outs[i])
    ensures Collect(parse, items) == outs
  {
    if items != [] {
      CollectInverts(parse, items[1..], outs[1..]);
      assert outs == [outs[0]] + outs[1..];
    }
  }

  function Parser(f: Formats): Json -> Option<ToolCall> {
    v => ParseCallValue(f, v)
  }

  function CallsOf(f: Formats, items: seq<Json>): seq<ToolCall> {
    Collect(Parser(f), items)
  }

  function CallsFromValue(f: Formats, v: Json): seq<ToolCall> {
    var listed := match Get(v, "tool_calls") case Some(Arr(items)) => CallsOf(f, items) case _ => [];
    if listed != [] then listed
    else if v.Arr? then CallsOf(f, v.items)
    else match ParseCallValue(f, v) case Some(call) => [call] case None => []
  }

  // The loop that pushes every element that parses.
  method CollectInto<T, U>(parse: T -> Option<U>, items: seq<T>) returns (found: seq<U>)
    ensures found == Collect(parse, items)
  {
    found := [];
    for i := 0 to |items|
      invariant found == Collect(parse, items[..i])
    {
      assert items[..i + 1] == items[..i] + [items[i]];
      CollectPush(parse, items[..i], items[i]);
      var parsed := parse(items[i]);
      if parsed.Some? {
        found := found + [parsed.value];
      }
    }
    assert items[..|items|] == items;
  }

  // `parse_tool_calls_from_json_value`.
  method ParseCallsFromValue(f: Formats, v: Json) returns (calls: seq<ToolCall>)
    ensures calls == CallsFromValue(f, v)
  {
    var listed := Get(v, "tool_calls");
    if listed.Some? && listed.value.Arr? {
      calls := CollectInto(Parser(f), listed.value.items);
      if calls != [] {
        return;
      }
    }
    if v.Arr? {
      calls := CollectInto(Parser(f), v.items);
    } else {
      var parsed := ParseCallValue(f, v);
      calls := if parsed.Some? then [parsed.value] else [];
    }
  }

  // ------------------------------------------------------------- round trips

  // A call as the native format writes it.
  function CallJson(call: ToolCall): Json {
    var inner := Obj(map["name" := Str(call.name), "arguments" := call.arguments]);
    Obj(if call.id.Some? then map["id" := Str(call.id.value), "function" := inner] else map["function" := inner])
  }

  predicate IsTrimmed(s: string) {
    s != "" && Trim(s) == s
  }

  // Arguments are not a bare string, which would be parsed once more.
  predicate WellFormed(call: ToolCall) {
    IsTrimmed(call.name) && !call.arguments.Str? && (call.id.Some? ==> IsTrimmed(call.id.value))
  }

  lemma CarrierGivesCall(f: Formats, carrier: Json, name: string, arguments: Json, id: Option<string>)
    requires Get(carrier, "name") == Some(Str(name)) && Get(carrier, "arguments") == Some(arguments)
    requires IsTrimmed(name)
    ensures CallFrom(f, carrier, id) == Some(ToolCall(name, ParseArguments(f, Some(arguments)), id))
  {
  }

  lemma IdComesBack(root: Json, inner: Json, id: Option<string>)
    requires Get(inner, "id") == None && Get(root, "tool_call_id") == None && Get(root, "call_id") == None
    requires Get(root, "id") == if id.Some? then Some(Str(id.value)) else None
    requires id.Some? ==> IsTrimmed(id.value)
    ensures ParseCallId(root, Some(inner)) == id
  {
  }

  lemma CallJsonMembers(call: ToolCall)
    ensures var v := CallJson(call);
            && Get(v, "function") == Some(Obj(map["name" := Str(call.name), "arguments" := call.arguments]))
            && Get(v, "tool_calls") == None && Get(v, "call_id") == None && Get(v, "tool_call_id") == None
            && Get(v, "id") == if call.id.Some? then Some(Str(call.id.value)) else None
  {
  }

  // What any printed call with a usable name is read as.
  lemma PrintedCallIsRead(f: Formats, call: ToolCall)
    requires IsTrimmed(call.name) && (call.id.Some? ==> IsTrimmed(call.id.value))
    ensures ParseCallValue(f, CallJson(call))
         == Some(ToolCall(call.name, ParseArguments(f, Some(call.arguments)), call.id))
  {
    var inner := Obj(map["name" := Str(call.name), "arguments" := call.arguments]);
    CallJsonMembers(call);
    IdComesBack(CallJson(call), inner, call.id);
    CarrierGivesCall(f, inner, call.name, call.arguments, call.id);
  }

  lemma CallRoundTrip(f: Formats, call: ToolCall)
    requires WellFormed(call)
    ensures ParseCallValue(f, CallJson(call)) == Some(call)
    ensures CallsFromValue(f, CallJson(call)) == [call]
  {
    PrintedCallIsRead(f, call);
    CallJsonMembers(call);
    SingleCall(f, CallJson(call), call);
  }

  lemma SingleCall(f: Formats, v: Json, call: ToolCall)
    requires !v.Arr? && Get(v, "tool_calls") == None && ParseCallValue(f, v) == Some(call)
    ensures CallsFromValue(f, v) == [call]
  {
  }

  function CallsJson(calls: seq<ToolCall>): seq<Json> {
    seq(|calls|, i requires 0 <= i < |calls| => CallJson(calls[i]))
  }

  // A whole `tool_calls` response gives its calls back in order.
  lemma ToolCallsResponseRoundTrip(f: Formats, calls: seq<ToolCall>)
    requires calls != [] && forall i | 0 <= i < |calls| :: WellFormed(calls[i])
    ensures CallsFromValue(f, Obj(map["tool_calls" := Arr(CallsJson(calls))])) == calls
  {
    forall i | 0 <= i < |calls|
      ensures Parser(f)(CallsJson(calls)[i]) == Some(calls[i])
    {
      CallRoundTrip(f, calls[i]);
    }
    CollectInverts(Parser(f), CallsJson(calls), calls);
    ListedCallsAreRead(f, CallsJson(calls));
  }

  lemma ListedCallsAreRead(f: Formats, items: seq<Json>)
    requires CallsOf(f, items) != []
    ensures CallsFromValue(f, Obj(map["tool_calls" := Arr(items)])) == CallsOf(f, items)
  {
  }

  // String arguments do not survive: they are read as JSON text, so a call is
  // given back unchanged exactly when the parser maps the string to itself.
  lemma StringArgumentsAreReparsed(f: Formats, call: ToolCall)
    requires IsTrimmed(call.name) && (call.id.Some? ==> IsTrimmed(call.id.value)) && call.arguments.Str?
    ensures ParseCallValue(f, CallJson(call)) == Some(call) <==> f.fromStr(call.arguments.s) == Some(call.arguments)
  {
    PrintedCallIsRead(f, call);
    StringSurvivesIff(f, call.arguments);
    var read := ToolCall(call.name, ParseArguments(f, Some(call.arguments)), call.id);
    assert read == call <==> read.arguments == call.arguments;
  }

  lemma StringSurvivesIff(f: Formats, arguments: Json)
    requires arguments.Str?
    ensures ParseArguments(f, Some(arguments)) == arguments <==> f.fromStr(arguments.s) == Some(arguments)
  {
  }

  // ------------------------------------------- what is read, member by member

  // No usable name: no such member, not a string, or nothing but blanks.
  predicate NoName(v: Json) {
    v.Obj? && "name" in v.fields && v.fields["name"].Str? ==> Blank(v.fields["name"].s)
  }

  lemma NamedIff(v: Json)
    ensures AsTrimmed(Get(v, "name")) == "" <==> NoName(v)
  {
    if v.Obj? && "name" in v.fields && v.fields["name"].Str? {
      TrimIsEmptyIff(v.fields["name"].s);
    }
  }

  // Members of `o` as the arguments of a call: `arguments` before `parameters`,
  // a string read as JSON text, and an empty object for want of anything better.
  predicate HasArguments(f: Formats, o: map<string, Json>, arguments: Json) {
    FirstArguments(f, Member(o, "arguments"), Member(o, "parameters"), arguments)
  }

  predicate FirstArguments(f: Formats, first: Option<Json>, second: Option<Json>, arguments: Json) {
    && (first.Some? ==> IsRead(f, first.value, arguments))
    && (first.None? && second.Some? ==> IsRead(f, second.value, arguments))
    && (first.None? && second.None? ==> arguments == Obj(map[]))
  }

  function Member(o: map<string, Json>, key: string): Option<Json> {
    if key in o then Some(o[key]) else None
  }

  predicate IsRead(f: Formats, written: Json, read: Json) {
    && (!written.Str? ==> read == written)
    && (written.Str? && f.fromStr(written.s).Some? ==> read == f.fromStr(written.s).value)
    && (written.Str? && f.fromStr(written.s).None? ==> read == Obj(map[]))
  }

  // The identifier is the first of these members that is there; if that one is
  // no string or blank, there is none.
  predicate IsId(v: Json, id: Option<string>) {
    id == if v.Str? && !Blank(v.s) then Some(Trim(v.s)) else None
  }

  predicate HasId(o: map<string, Json>, id: Option<string>) {
    FirstId(Member(o, "id"), Member(o, "tool_call_id"), Member(o, "call_id"), id)
  }

  predicate FirstId(first: Option<Json>, second: Option<Json>, third: Option<Json>, id: Option<string>) {
    && (first.Some? ==> IsId(first.value, id))
    && (first.None? && second.Some? ==> IsId(second.value, id))
    && (first.None? && second.None? && third.Some? ==> IsId(third.value, id))
    && (first.None? && second.None? && third.None? ==> id == None)
  }

  lemma RootIdIsRead(o: map<string, Json>)
    ensures HasId(o, ParseCallId(Obj(o), None))
  {
    forall k | k in o && o[k].Str?
      ensures Trim(o[k].s) == "" <==> Blank(o[k].s)
    {
      TrimIsEmptyIff(o[k].s);
    }
  }

  lemma CarrierIsRead(f: Formats, o: map<string, Json>, id: Option<string>)
    requires !NoName(Obj(o))
    ensures var call := CallFrom(f, Obj(o), id);
            call.Some? && call.value.name == Trim(o["name"].s) && HasArguments(f, o, call.value.arguments) && call.value.id == id
  {
    NamedIff(Obj(o));
    ArgumentsAreRead(f, o);
  }

  lemma ArgumentsAreRead(f: Formats, o: map<string, Json>)
    ensures HasArguments(f, o, ParseArguments(f, OrElse(Get(Obj(o), "arguments"), Get(Obj(o), "parameters"))))
  {
    forall written
      ensures IsRead(f, written, ParseArguments(f, Some(written)))
    {
    }
  }

  lemma OnlyCall(f: Formats, v: Json)
    requires Plain(v)
    ensures CallsFromValue(f, v) == match ParseCallValue(f, v) { case Some(call) => [call] case None => [] }
  {
  }

  lemma NoCarrier(f: Formats, v: Json, id: Option<string>)
    requires NoName(v)
    ensures CallFrom(f, v, id) == None
  {
    NamedIff(v);
  }

  lemma FunctionIsPassedOver(f: Formats, o: map<string, Json>)
    requires "function" in o ==> NoName(o["function"])
    ensures ParseCallValue(f, Obj(o)) == CallFrom(f, Obj(o), ParseCallId(Obj(o), None))
  {
    if "function" in o {
      NoCarrier(f, o["function"], ParseCallId(Obj(o), Some(o["function"])));
    }
  }

  // A call at the top level: the flat form, also next to a `function` without a
  // usable name.
  lemma FlatCallIsRead(f: Formats, o: map<string, Json>)
    requires !NoName(Obj(o)) && ("function" in o ==> NoName(o["function"])) && "tool_calls" !in o
    ensures var calls := CallsFromValue(f, Obj(o));
            && |calls| == 1 && calls[0].name == Trim(o["name"].s)
            && HasArguments(f, o, calls[0].arguments) && HasId(o, calls[0].id)
  {
    OnlyCall(f, Obj(o));
    FunctionIsPassedOver(f, o);
    RootIdIsRead(o);
    CarrierIsRead(f, o, ParseCallId(Obj(o), None));
  }

  lemma InnerIdIsRead(o: map<string, Json>, inner: map<string, Json>)
    ensures var id := ParseCallId(Obj(o), Some(Obj(inner)));
            if "id" in inner then IsId(inner["id"], id) else HasId(o, id)
  {
    RootIdIsRead(o);
    if "id" in inner && inner["id"].Str? {
      TrimIsEmptyIff(inner["id"].s);
    }
  }

  // A call under `function`: an identifier in there goes before those outside.
  lemma NestedCallIsRead(f: Formats, o: map<string, Json>)
    requires "function" in o && o["function"].Obj? && !NoName(o["function"]) && "tool_calls" !in o
    ensures var (calls, inner) := (CallsFromValue(f, Obj(o)), o["function"].fields);
            && |calls| == 1 && calls[0].name == Trim(inner["name"].s)
            && HasArguments(f, inner, calls[0].arguments)
            && if "id" in inner then IsId(inner["id"], calls[0].id) else HasId(o, calls[0].id)
  {
    var inner := o["function"].fields;
    OnlyCall(f, Obj(o));
    InnerIdIsRead(o, inner);
    CarrierIsRead(f, inner, ParseCallId(Obj(o), Some(Obj(inner))));
    FunctionIsTaken(f, o);
  }

  lemma FunctionIsTaken(f: Formats, o: map<string, Json>)
    requires "function" in o && CallFrom(f, o["function"], ParseCallId(Obj(o), Some(o["function"]))).Some?
    ensures ParseCallValue(f, Obj(o)) == CallFrom(f, o["function"], ParseCallId(Obj(o), Some(o["function"])))
  {
  }

  lemma NothingIsRead(f: Formats, v: Json)
    requires Plain(v) && NoName(v)
    requires v.Obj? && "function" in v.fields ==> NoName(v.fields["function"])
    ensures CallsFromValue(f, v) == []
  {
    OnlyCall(f, v);
    NoCarrier(f, v, ParseCallId(v, None));
    if v.Obj? {
      FunctionIsPassedOver(f, v.fields);
    }
  }

  predicate Plain(v: Json) {
    !v.Arr? && (v.Obj? ==> "tool_calls" !in v.fields)
  }

  // An element of a list is a single call: a list inside it is not looked into.
  function ElementCalls(f: Formats, v: Json): seq<ToolCall> {
    match v
    case Obj(o) => CallsFromValue(f, Obj(o - {"tool_calls"}))
    case _ => []
  }

  function ListCalls(f: Formats, items: seq<Json>): seq<ToolCall> {
    if items == [] then [] else ElementCalls(f, items[0]) + ListCalls(f, items[1..])
  }

  lemma ElementIsRead(f: Formats, v: Json)
    ensures ElementCalls(f, v) == match ParseCallValue(f, v) { case Some(call) => [call] case None => [] }
  {
    if v.Obj? {
      OnlyCall(f, Obj(v.fields - {"tool_calls"}));
      RestIsTheSame(f, v.fields);
    }
  }

  lemma {:induction false} ListIsReadInOrder(f: Formats, items: seq<Json>)
    ensures CallsOf(f, items) == ListCalls(f, items)
  {
    if items != [] {
      ElementIsRead(f, items[0]);
      ListIsReadInOrder(f, items[1..]);
    }
  }

  lemma ArrayIsReadInOrder(f: Formats, items: seq<Json>)
    ensures CallsFromValue(f, Arr(items)) == ListCalls(f, items)
  {
    ListIsReadInOrder(f, items);
  }

  // `tool_calls` is read if it gives any call; otherwise it might not be there.
  lemma ToolCallsComeFirst(f: Formats, o: map<string, Json>)
    requires "tool_calls" in o
    ensures CallsFromValue(f, Obj(o)) ==
            if o["tool_calls"].Arr? && ListCalls(f, o["tool_calls"].items) != [] then ListCalls(f, o["tool_calls"].items)
            else CallsFromValue(f, Obj(o - {"tool_calls"}))
  {
    if o["tool_calls"].Arr? {
      ListIsReadInOrder(f, o["tool_calls"].items);
    }
    RestIsTheSame(f, o);
  }

  lemma RestIsTheSame(f: Formats, o: map<string, Json>)
    ensures ParseCallValue(f, Obj(o - {"tool_calls"})) == ParseCallValue(f, Obj(o))
  {
    var (a, b) := (Obj(o - {"tool_calls"}), Obj(o));
    SameMember(o, "name");
    SameMember(o, "arguments");
    SameMember(o, "parameters");
    SameMember(o, "function");
    SameMember(o, "id");
    SameMember(o, "tool_call_id");
    SameMember(o, "call_id");
    SameMembersSameCall(f, a, b);
  }

  lemma SameMember(o: map<string, Json>, key: string)
    requires key != "tool_calls"
    ensures Get(Obj(o - {"tool_calls"}), key) == Get(Obj(o), key)
  {
  }

  lemma SameMembersSameCall(f: Formats, a: Json, b: Json)
    requires Get(a, "name") == Get(b, "name") && Get(a, "arguments") == Get(b, "arguments")
    requires Get(a, "parameters") == Get(b, "parameters") && Get(a, "function") == Get(b, "function")
    requires Get(a, "id") == Get(b, "id") && Get(a, "tool_call_id") == Get(b, "tool_call_id") && Get(a, "call_id") == Get(b, "call_id")
    ensures ParseCallValue(f, a) == ParseCallValue(f, b)
  {
    assert forall inner :: ParseCallId(a, inner) == ParseCallId(b, inner);
    assert CallFrom(f, a, ParseCallId(a, None)) == CallFrom(f, b, ParseCallId(b, None));
  }

  // The flat form as a model writes it, with either name of the arguments and
  // any of the three names of the identifier.
  datatype ArgumentsKey = Arguments | Parameters {
    function Name(): string {
      match this case Arguments => "arguments" case Parameters => "parameters"
    }
  }

  datatype IdKey = Id | ToolCallId | CallId {
    function Name(): string {
      match this case Id => "id" case ToolCallId => "tool_call_id" case CallId => "call_id"
    }
  }

  function FlatJson(call: ToolCall, a: ArgumentsKey, i: IdKey): Json {
    var o := map["name" := Str(call.name), a.Name() := call.arguments];
    Obj(if call.id.Some? then o[i.Name() := Str(call.id.value)] else o)
  }

  lemma KeysDiffer(a: ArgumentsKey, i: IdKey)
    ensures |a.Name()| >= 9 && |i.Name()| != |a.Name()| && |i.Name()| != 4 && |i.Name()| != 8
    ensures a.Name() != "tool_calls"
  {
    assert Parameters.Name()[0] == 'p';
  }

  lemma FlatMembers(call: ToolCall, a: ArgumentsKey, i: IdKey)
    ensures var o := FlatJson(call, a, i).fields;
            && Member(o, "name") == Some(Str(call.name)) && "function" !in o && "tool_calls" !in o
            && Member(o, a.Name()) == Some(call.arguments)
            && Member(o, i.Name()) == (if call.id.Some? then Some(Str(call.id.value)) else None)
            && (forall k: ArgumentsKey | k != a :: Member(o, k.Name()) == None)
            && (forall k: IdKey | k != i :: Member(o, k.Name()) == None)
  {
    KeysDiffer(a, i);
    forall k: ArgumentsKey | k != a
      ensures k.Name() != a.Name() && |k.Name()| >= 9 && |k.Name()| != |i.Name()|
    {
      KeysDiffer(k, i);
      assert |Arguments.Name()| == 9 && |Parameters.Name()| == 10;
    }
    forall k: IdKey | k != i
      ensures |k.Name()| != |i.Name()| && |k.Name()| != 4 && |k.Name()| != |a.Name()|
    {
      KeysDiffer(a, k);
      assert |Id.Name()| == 2 && |ToolCallId.Name()| == 12 && |CallId.Name()| == 7;
    }
  }

  lemma OnlyArguments(f: Formats, first: Option<Json>, second: Option<Json>, arguments: Json, read: Json)
    requires !arguments.Str? && FirstArguments(f, first, second, read)
    requires first == Some(arguments) || (first == None && second == Some(arguments))
    ensures read == arguments
  {
  }

  lemma PrintedId(s: string, read: Option<string>)
    requires IsTrimmed(s) && IsId(Str(s), read)
    ensures read == Some(s)
  {
    TrimIsEmptyIff(s);
  }

  predicate FirstIs<T(==)>(first: Option<T>, second: Option<T>, third: Option<T>, v: T) {
    first == Some(v) || (first == None && second == Some(v)) || (first == None && second == None && third == Some(v))
  }

  lemma OnlyId(first: Option<Json>, second: Option<Json>, third: Option<Json>, id: Option<string>, read: Option<string>)
    requires FirstId(first, second, third, read)
    requires match id
             case None => first == None && second == None && third == None
             case Some(s) => IsTrimmed(s) && FirstIs(first, second, third, Str(s))
    ensures read == id
  {
    if id.Some? {
      assert IsId(Str(id.value), read);
      PrintedId(id.value, read);
    }
  }

  lemma FlatCallRoundTrip(f: Formats, call: ToolCall, a: ArgumentsKey, i: IdKey)
    requires WellFormed(call)
    ensures Plain(FlatJson(call, a, i)) && CallsFromValue(f, FlatJson(call, a, i)) == [call]
  {
    var o := FlatJson(call, a, i).fields;
    FlatMembers(call, a, i);
    TrimIsEmptyIff(call.name);
    FlatCallIsRead(f, o);
    FlatFormIsRead(f, o, call, a, i, CallsFromValue(f, Obj(o))[0]);
  }

  lemma FlatFormIsRead(f: Formats, o: map<string, Json>, call: ToolCall, a: ArgumentsKey, i: IdKey, read: ToolCall)
    requires WellFormed(call) && o == FlatJson(call, a, i).fields
    requires Member(o, "name") == Some(Str(call.name)) && read.name == Trim(o["name"].s)
    requires HasArguments(f, o, read.arguments) && HasId(o, read.id)
    ensures read == call
  {
    FlatMembers(call, a, i);
    var (byArguments, byParameters) := (Member(o, Arguments.Name()), Member(o, Parameters.Name()));
    var (byId, byToolCallId, byCallId) := (Member(o, Id.Name()), Member(o, ToolCallId.Name()), Member(o, CallId.Name()));
    OnlyArguments(f, byArguments, byParameters, call.arguments, read.arguments);
    OnlyId(byId, byToolCallId, byCallId, call.id, read.id);
  }

  // Flat calls in a bare array and under `tool_calls` come back in order.
  lemma FlatCallsRoundTrip(f: Formats, calls: seq<ToolCall>, items: seq<Json>, a: ArgumentsKey, i: IdKey)
    requires |items| == |calls|
    requires forall k | 0 <= k < |calls| :: WellFormed(calls[k]) && items[k] == FlatJson(calls[k], a, i)
    ensures CallsFromValue(f, Arr(items)) == calls
    ensures calls != [] ==> CallsFromValue(f, Obj(map["tool_calls" := Arr(items)])) == calls
  {
    forall k | 0 <= k < |items|
      ensures ElementCalls(f, items[k]) == [calls[k]]
    {
      FlatCallRoundTrip(f, calls[k], a, i);
      PlainElement(f, items[k]);
    }
    ReadOneByOne(f, items, calls);
    ArrayIsReadInOrder(f, items);
    ToolCallsComeFirst(f, map["tool_calls" := Arr(items)]);
  }

  lemma PlainElement(f: Formats, v: Json)
    requires v.Obj? && Plain(v)
    ensures ElementCalls(f, v) == CallsFromValue(f, v)
  {
    assert v.fields - {"tool_calls"} == v.fields;
  }

  lemma {:induction false} ReadOneByOne(f: Formats, items: seq<Json>, calls: seq<ToolCall>)
    requires |items| == |calls| && forall i | 0 <= i < |items| :: ElementCalls(f, items[i]) == [calls[i]]
    ensures ListCalls(f, items) == calls
  {
    if items != [] {
      ReadOneByOne(f, items[1..], calls[1..]);
      assert calls == [calls[0]] + calls[1..];
    }
  }
}
