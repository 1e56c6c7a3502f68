// The tool registry and its cache of tool specs.  Mutators change the map or a
// filter first and invalidate the cache later; a rebuild walks the map entry by
// entry under the cache's write lock while mutators go on.
module ToolRegistry {
  import opened Wrappers
  import opened StringOrder

  datatype Source = BuiltIn | Mcp(server: string) | Remote(session: string)

  datatype Spec = Spec(name: string, description: string, parameters: string)

  // A shared tool; its spec carries its name.
  datatype Tool = Tool(handle: nat, spec: Spec)

  datatype Entry = Entry(tool: Tool, source: Source)

  // Fixed at construction: the glob test and the filters of each MCP server.
  datatype Config = Config(glob: (string, string) -> bool, mcp: map<string, seq<string>>)

  datatype Filters = Filters(allowed: seq<string>, denied: seq<string>)

  predicate AnyMatches(c: Config, name: string, patterns: seq<string>) {
    exists i | 0 <= i < |patterns| :: c.glob(name, patterns[i])
  }

  predicate IsAllowed(c: Config, f: Filters, name: string, source: Source) {
    if AnyMatches(c, name, f.denied) then false
    else if f.allowed != [] then AnyMatches(c, name, f.allowed)
    else if source.Mcp? && source.server in c.mcp then AnyMatches(c, name, c.mcp[source.server])
    else true
  }

  function Get(c: Config, tools: map<string, Entry>, f: Filters, name: string): Option<Tool> {
    if name in tools && IsAllowed(c, f, name, tools[name].source) then Some(tools[name].tool) else None
  }

  // Which tools are served, in terms of the pattern lists: a denied pattern
  // refuses whatever the others say; then a nonempty allowed list decides; then
  // the filters of a filtered MCP server; everything else is served.
  lemma ServedIff(c: Config, tools: map<string, Entry>, f: Filters, name: string)
    ensures (exists i | 0 <= i < |f.denied| :: c.glob(name, f.denied[i])) || name !in tools ==> Get(c, tools, f, name) == None
    ensures name in tools && (forall i | 0 <= i < |f.denied| :: !c.glob(name, f.denied[i])) ==>
              var source := tools[name].source;
              Get(c, tools, f, name) ==
                if f.allowed != [] then
                  if exists i | 0 <= i < |f.allowed| :: c.glob(name, f.allowed[i]) then Some(tools[name].tool) else None
                else if source.Mcp? && source.server in c.mcp then
                  if exists i | 0 <= i < |c.mcp[source.server]| :: c.glob(name, c.mcp[source.server][i]) then Some(tools[name].tool)
                  else None
                else Some(tools[name].tool)
  {
    assert AnyMatches(c, name, f.denied) <==> exists i | 0 <= i < |f.denied| :: c.glob(name, f.denied[i]);
  }

  function AllowedSpecs(c: Config, tools: map<string, Entry>, f: Filters): map<string, Spec> {
    map k | k in tools && IsAllowed(c, f, k, tools[k].source) :: tools[k].tool.spec
  }

  ghost function InNameOrder(found: map<string, Spec>): seq<Spec> {
    var names := Sorted(found.Keys);
    seq(|names|, i requires 0 <= i < |names| => assert names[i] in names; found[names[i]])
  }

  ghost function Recomputed(c: Config, tools: map<string, Entry>, f: Filters): seq<Spec> {
    InNameOrder(AllowedSpecs(c, tools, f))
  }

  ghost predicate WellNamed(tools: map<string, Entry>) {
    forall k | k in tools :: tools[k].tool.spec.name == k
  }

  function Names(specs: seq<Spec>): seq<string> {
    seq(|specs|, i requires 0 <= i < |specs| => specs[i].name)
  }

  // Recomputed specs are exactly the tools that `get_tool` serves, by name.
  lemma RecomputedIsServed(c: Config, tools: map<string, Entry>, f: Filters)
    requires WellNamed(tools)
    ensures var specs := Recomputed(c, tools, f);
            && Ascending(Names(specs))
            && (forall i | 0 <= i < |specs| ::
                  Get(c, tools, f, specs[i].name).Some? && Get(c, tools, f, specs[i].name).value.spec == specs[i])
            && (forall name :: name in Names(specs) <==> Get(c, tools, f, name).Some?)
  {
    var found := AllowedSpecs(c, tools, f);
    var names := Sorted(found.Keys);
    var specs := Recomputed(c, tools, f);
    forall i | 0 <= i < |specs|
      ensures specs[i].name == names[i] && names[i] in found
    {
      assert names[i] in names;
    }
    assert Names(specs) == names;
  }

  // ------------------------------------------------------- interleaved steps

  type Thread = nat

  // A walk over the map: the keys it must still meet, those it met, and the
  // specs it kept.  A key that changes meanwhile may be met or missed.
  datatype Rebuild = Rebuild(thread: Thread, due: set<string>, met: set<string>, found: map<string, Spec>)

  datatype World = World(
    tools: map<string, Entry>, filters: Filters, cache: Option<seq<Spec>>,
    dirty: set<Thread>,           // mutators between their change and their invalidation
    rebuild: Option<Rebuild>)     // who holds the cache's write lock

  datatype Action =
    | Put(thread: Thread, entry: Entry)
    | Remove(thread: Thread, name: string)
    | SetAllowed(thread: Thread, patterns: seq<string>)
    | SetDenied(thread: Thread, patterns: seq<string>)
    | Invalidate(thread: Thread)
    | ReadCache(thread: Thread)
    | BeginRebuild(thread: Thread)
    | Visit(thread: Thread, name: string)
    | EndRebuild(thread: Thread)

  predicate Rebuilds(w: World, t: Thread) {
    w.rebuild.Some? && w.rebuild.value.thread == t
  }

  predicate Enabled(w: World, a: Action) {
    match a
    case Put(t, _) => !Rebuilds(w, t)
    case Remove(t, _) => !Rebuilds(w, t)
    case SetAllowed(t, _) => !Rebuilds(w, t)
    case SetDenied(t, _) => !Rebuilds(w, t)
    case Invalidate(t) => w.rebuild.None?
    case ReadCache(t) => t !in w.dirty && w.rebuild.None? && w.cache.Some?
    case BeginRebuild(t) => t !in w.dirty && w.rebuild.None? && w.cache.None?
    case Visit(t, name) => Rebuilds(w, t) && name in w.tools && name !in w.rebuild.value.met
    case EndRebuild(t) => Rebuilds(w, t) && w.rebuild.value.due == {}
  }

  function Loosen(r: Option<Rebuild>, name: string): Option<Rebuild> {
    if r.Some? then Some(r.value.(due := r.value.due - {name})) else None
  }

  ghost function Next(c: Config, w: World, a: Action): World
    requires Enabled(w, a)
  {
    match a
    case Put(t, entry) =>
      var name := entry.tool.spec.name;
      w.(tools := w.tools[name := entry], dirty := w.dirty + {t}, rebuild := Loosen(w.rebuild, name))
    case Remove(t, name) =>
      w.(tools := w.tools - {name}, dirty := w.dirty + {t}, rebuild := Loosen(w.rebuild, name))
    case SetAllowed(t, patterns) => w.(filters := w.filters.(allowed := patterns), dirty := w.dirty + {t})
    case SetDenied(t, patterns) => w.(filters := w.filters.(denied := patterns), dirty := w.dirty + {t})
    case Invalidate(t) => w.(cache := None, dirty := w.dirty - {t})
    case ReadCache(t) => w
    case BeginRebuild(t) => w.(rebuild := Some(Rebuild(t, w.tools.Keys, {}, map[])))
    case Visit(t, name) =>
      var r := w.rebuild.value;
      var kept := if IsAllowed(c, w.filters, name, w.tools[name].source) then r.found[name := w.tools[name].tool.spec] else r.found;
      w.(rebuild := Some(Rebuild(t, r.due - {name}, r.met + {name}, kept)))
    case EndRebuild(t) => w.(cache := Some(InNameOrder(w.rebuild.value.found)), rebuild := None)
  }

  // The specs that a call to `tool_specs` returns with this step, if it does.
  ghost function Returned(c: Config, w: World, a: Action): Option<seq<Spec>>
    requires Enabled(w, a)
  {
    if a.ReadCache? || a.EndRebuild? then Next(c, w, a).cache else None
  }

  // -------------------------------------------------------------- invariants

  // What the walk has kept is right for the keys it has met.
  ghost predicate Faithful(c: Config, w: World, r: Rebuild) {
    && r.met <= w.tools.Keys
    && r.due == w.tools.Keys - r.met
    && r.found == map k | k in r.met && IsAllowed(c, w.filters, k, w.tools[k].source) :: w.tools[k].tool.spec
  }

  // Exactness is promised only while no mutator is halfway.
  ghost predicate Inv(c: Config, w: World) {
    && WellNamed(w.tools)
    && (w.rebuild.Some? ==> w.cache.None? && w.rebuild.value.thread !in w.dirty)
    && (w.dirty == {} && w.cache.Some? ==> w.cache.value == Recomputed(c, w.tools, w.filters))
    && (w.dirty == {} && w.rebuild.Some? ==> Faithful(c, w, w.rebuild.value))
  }

  lemma VisitKeepsFaithful(c: Config, w: World, a: Action)
    requires Inv(c, w) && Enabled(w, a) && a.Visit? && w.dirty == {}
    ensures Faithful(c, Next(c, w, a), Next(c, w, a).rebuild.value)
  {
  }

  lemma EndIsExact(c: Config, w: World, a: Action)
    requires Inv(c, w) && Enabled(w, a) && a.EndRebuild? && w.dirty == {}
    ensures Next(c, w, a).cache == Some(Recomputed(c, w.tools, w.filters))
  {
    var r := w.rebuild.value;
    assert forall k | k in w.tools :: k in r.met by {
      assert forall k | k in w.tools && k !in r.met :: k in r.due;
    }
    assert r.found == AllowedSpecs(c, w.tools, w.filters);
  }

  lemma NextKeepsInv(c: Config, w: World, a: Action)
    requires Inv(c, w) && Enabled(w, a)
    ensures Inv(c, Next(c, w, a))
  {
    if w.dirty == {} {
      if a.Visit? {
        VisitKeepsFaithful(c, w, a);
      } else if a.EndRebuild? {
        EndIsExact(c, w, a);
      }
    }
    if a.Put? || a.Remove? || a.SetAllowed? || a.SetDenied? {
      assert a.thread in Next(c, w, a).dirty;
    }
  }

  ghost predicate IsRun(c: Config, w: World, actions: seq<Action>)
    decreases |actions|
  {
    actions == [] || (Enabled(w, actions[0]) && IsRun(c, Next(c, w, actions[0]), actions[1..]))
  }

  ghost function RunEnd(c: Config, w: World, actions: seq<Action>): World
    requires IsRun(c, w, actions)
    decreases |actions|
  {
    if actions == [] then w else RunEnd(c, Next(c, w, actions[0]), actions[1..])
  }

  function Start(f: Filters): World {
    World(map[], f, None, {}, None)
  }

  lemma {:induction false} RunKeepsInv(c: Config, w: World, actions: seq<Action>)
    requires Inv(c, w) && IsRun(c, w, actions)
    ensures Inv(c, RunEnd(c, w, actions))
    decreases |actions|
  {
    if actions != [] {
      NextKeepsInv(c, w, actions[0]);
      RunKeepsInv(c, Next(c, w, actions[0]), actions[1..]);
    }
  }

  // Main result 1: in every interleaving, a filled cache with no mutator
  // halfway equals recomputation.
  lemma CacheAgrees(c: Config, f: Filters, actions: seq<Action>)
    requires IsRun(c, Start(f), actions)
    ensures var w := RunEnd(c, Start(f), actions);
            w.dirty == {} && w.cache.Some? ==> w.cache.value == Recomputed(c, w.tools, w.filters)
  {
    RunKeepsInv(c, Start(f), actions);
  }

  // Main result 2: a `tool_specs` call that returns while no mutator is halfway
  // returns, in name order, exactly the tools that `get_tool` serves.
  lemma ReturnedIsServed(c: Config, f: Filters, actions: seq<Action>, a: Action)
    requires IsRun(c, Start(f), actions) && Enabled(RunEnd(c, Start(f), actions), a)
    requires RunEnd(c, Start(f), actions).dirty == {} && (a.ReadCache? || a.EndRebuild?)
    ensures var w := RunEnd(c, Start(f), actions);
            && Returned(c, w, a).Some?
            && var specs := Returned(c, w, a).value;
               && Ascending(Names(specs))
               && (forall i | 0 <= i < |specs| ::
                     Get(c, w.tools, w.filters, specs[i].name).Some? &&
                     Get(c, w.tools, w.filters, specs[i].name).value.spec == specs[i])
               && (forall name :: name in Names(specs) <==> Get(c, w.tools, w.filters, name).Some?)
  {
    RunKeepsInv(c, Start(f), actions);
    var w := RunEnd(c, Start(f), actions);
    if a.EndRebuild? {
      EndIsExact(c, w, a);
    }
    RecomputedIsServed(c, w.tools, w.filters);
  }

  // The hypothesis is needed: between the removal of a served tool and the
  // invalidation, a cached answer still lists a tool that `get_tool` refuses.
  lemma StaleInBetween(c: Config, w: World, t: Thread, u: Thread, name: string)
    requires Inv(c, w) && w.dirty == {} && w.cache.Some? && t != u
    requires Get(c, w.tools, w.filters, name).Some?
    ensures Enabled(w, Remove(t, name))
    ensures var w' := Next(c, w, Remove(t, name));
            && Enabled(w', ReadCache(u))
            && Returned(c, w', ReadCache(u)).Some?
            && name in Names(Returned(c, w', ReadCache(u)).value)
            && Get(c, w'.tools, w'.filters, name).None?
  {
    RecomputedIsServed(c, w.tools, w.filters);
  }

  // A rebuild that nobody disturbs can finish, and then it has filled the cache.
  lemma {:induction false} RebuildCanFinish(c: Config, w: World, t: Thread) returns (steps: seq<Action>)
    requires Inv(c, w) && w.dirty == {} && Rebuilds(w, t)
    ensures IsRun(c, w, steps) && RunEnd(c, w, steps) == w.(cache := Some(Recomputed(c, w.tools, w.filters)), rebuild := None)
    decreases |w.rebuild.value.due|
  {
    var r := w.rebuild.value;
    if r.due == {} {
      steps := [EndRebuild(t)];
      EndIsExact(c, w, EndRebuild(t));
      RunOne(c, w, EndRebuild(t));
    } else {
      var name :| name in r.due;
      var visit := Visit(t, name);
      assert name in w.tools && name !in r.met;
      NextKeepsInv(c, w, visit);
      var rest := RebuildCanFinish(c, Next(c, w, visit), t);
      steps := [visit] + rest;
      assert steps[1..] == rest;
    }
  }

  lemma RunOne(c: Config, w: World, a: Action)
    requires Enabled(w, a)
    ensures IsRun(c, w, [a]) && RunEnd(c, w, [a]) == Next(c, w, a)
  {
    assert [a][1..] == [];
  }

  // So a call to `tool_specs` can be served from any state between mutations.
  lemma SpecsCanBeHad(c: Config, w: World, t: Thread) returns (steps: seq<Action>)
    requires Inv(c, w) && w.dirty == {} && w.rebuild.None?
    ensures IsRun(c, w, steps) && RunEnd(c, w, steps) == w.(cache := Some(Recomputed(c, w.tools, w.filters)))
  {
    if w.cache.Some? {
      steps := [ReadCache(t)];
      RunOne(c, w, ReadCache(t));
    } else {
      NextKeepsInv(c, w, BeginRebuild(t));
      var rest := RebuildCanFinish(c, Next(c, w, BeginRebuild(t)), t);
      steps := [BeginRebuild(t)] + rest;
      assert steps[1..] == rest;
    }
  }

  // Mutators never wait for a rebuild to make their change, only to invalidate.
  lemma ChangesPassRebuilds(c: Config, w: World, u: Thread, t: Thread, entry: Entry, name: string, patterns: seq<string>)
    requires Rebuilds(w, u) && t != u
    ensures forall change | change in [Put(t, entry), Remove(t, name), SetAllowed(t, patterns), SetDenied(t, patterns)] ::
              Enabled(w, change) && Rebuilds(Next(c, w, change), u) && !Enabled(Next(c, w, change), Invalidate(t))
  {
  }

  // A registration can overtake a rebuild that is about to end: the cache is then
  // filled without the new tool, and the invalidation that is still to come
  // empties it again.
  lemma OvertakenRebuildIsDiscarded(c: Config, w: World, t: Thread, u: Thread, entry: Entry)
    requires Inv(c, w) && w.dirty == {} && Rebuilds(w, u) && w.rebuild.value.due == {} && t != u
    requires entry.tool.spec.name !in w.tools && IsAllowed(c, w.filters, entry.tool.spec.name, entry.source)
    ensures Enabled(w, Put(t, entry))
    ensures var (w1, name) := (Next(c, w, Put(t, entry)), entry.tool.spec.name);
            && Get(c, w1.tools, w1.filters, name) == Some(entry.tool)
            && Enabled(w1, EndRebuild(u))
            && var w2 := Next(c, w1, EndRebuild(u));
               && w2.cache.Some? && name !in Names(w2.cache.value)
               && Enabled(w2, Invalidate(t)) && Next(c, w2, Invalidate(t)).cache == None
  {
    EndIsExact(c, w, EndRebuild(u));
    RecomputedIsServed(c, w.tools, w.filters);
  }

  // A mutator that runs alone: its change, then its invalidation.
  ghost function Alone(c: Config, w: World, change: Action): World
    requires w.rebuild.None? && (change.Put? || change.Remove? || change.SetAllowed? || change.SetDenied?)
  {
    Next(c, Next(c, w, change), Invalidate(change.thread))
  }

  // The steps of the machine are those of the methods below.
  lemma MutatorsAlone(c: Config, w: World, t: Thread, entry: Entry, name: string, patterns: seq<string>)
    requires w.dirty == {} && w.rebuild.None?
    ensures Alone(c, w, Put(t, entry)) == World(w.tools[entry.tool.spec.name := entry], w.filters, None, {}, None)
    ensures Alone(c, w, Remove(t, name)) == World(w.tools - {name}, w.filters, None, {}, None)
    ensures Alone(c, w, SetAllowed(t, patterns)) == World(w.tools, Filters(patterns, w.filters.denied), None, {}, None)
    ensures Alone(c, w, SetDenied(t, patterns)) == World(w.tools, Filters(w.filters.allowed, patterns), None, {}, None)
  {
    assert {} + {t} - {t} == {};
  }

  // --------------------------------------------------- the registry in place

  class DefaultToolRegistry {
    const config: Config
    var tools: map<string, Entry>
    var allowedPatterns: seq<string>
    var deniedPatterns: seq<string>
    var cachedSpecs: Option<seq<Spec>>

    function CurrentFilters(): Filters
      reads this
    {
      Filters(allowedPatterns, deniedPatterns)
    }

    // Between calls no mutator is halfway and no rebuild is running.
    ghost function Abs(): World
      reads this
    {
      World(tools, CurrentFilters(), cachedSpecs, {}, None)
    }

    ghost predicate Valid()
      reads this
    {
      Inv(config, Abs())
    }

    constructor WithFilters(config: Config, allowed: seq<string>, denied: seq<string>)
      ensures Valid() && this.config == config && tools == map[] && CurrentFilters() == Filters(allowed, denied)
    {
      this.config := config;
      tools, allowedPatterns, deniedPatterns, cachedSpecs := map[], allowed, denied, None;
    }

    method UpdateFilters(allowed: seq<string>, denied: seq<string>)
      requires Valid()
      modifies this
      ensures Valid() && CurrentFilters() == Filters(allowed, denied) && tools == old(tools)
    {
      allowedPatterns := allowed;
      deniedPatterns := denied;
      cachedSpecs := None;
    }

    method RegisterOrReplace(tool: Tool, source: Source) returns (previous: Option<Source>)
      requires Valid()
      modifies this`tools, this`cachedSpecs
      ensures Valid() && tools == old(tools)[tool.spec.name := Entry(tool, source)]
      ensures previous == if tool.spec.name in old(tools) then Some(old(tools)[tool.spec.name].source) else None
    {
      var name := tool.spec.name;
      previous := if name in tools then Some(tools[name].source) else None;
      tools := tools[name := Entry(tool, source)];
      cachedSpecs := None;
    }

    method Register(tool: Tool, source: Source) returns (added: bool)
      requires Valid()
      modifies this`tools, this`cachedSpecs
      ensures Valid() && added == (tool.spec.name !in old(tools))
      ensures tools == if added then old(tools)[tool.spec.name := Entry(tool, source)] else old(tools)
    {
      if tool.spec.name in tools {
        return false;
      }
      tools := tools[tool.spec.name := Entry(tool, source)];
      cachedSpecs := None;
      return true;
    }

    method RegisterAll(batch: seq<Tool>, source: Source) returns (count: nat)
      requires Valid()
      modifies this`tools, this`cachedSpecs
      ensures Valid() && count == |tools| - |old(tools)|
      ensures forall name | name in old(tools) :: name in tools && tools[name] == old(tools)[name]
      ensures forall name | name in tools && name !in old(tools) :: exists i :: IsFirst(batch, i, name)
      ensures forall i, name | IsFirst(batch, i, name) && name !in old(tools) ::
                name in tools && tools[name] == Entry(batch[i], source)
    {
      count := 0;
      var i := 0;
      while i < |batch|
        invariant 0 <= i <= |batch|
        invariant AddedAll(tools, batch[i..], source) == AddedAll(old(tools), batch, source)
        invariant count == |tools| - |old(tools)| && WellNamed(tools)
        invariant cachedSpecs == old(cachedSpecs) && (count == 0 ==> tools == old(tools))
      {
        var name := batch[i].spec.name;
        assert batch[i..][1..] == batch[i + 1..];
        if name !in tools {
          tools := tools[name := Entry(batch[i], source)];
          count := count + 1;
        }
        i := i + 1;
      }
      if count > 0 {
        cachedSpecs := None;
      }
      AddedAllKeepsAndAdds(old(tools), batch, source);
    }

    method Unregister(name: string) returns (removed: bool)
      requires Valid()
      modifies this`tools, this`cachedSpecs
      ensures Valid() && tools == old(tools) - {name} && removed == (name in old(tools))
    {
      removed := name in tools;
      if removed {
        tools := tools - {name};
        cachedSpecs := None;
      } else {
        assert tools - {name} == tools;
      }
    }

    method UnregisterBySource(source: Source) returns (count: nat)
      requires Valid()
      modifies this`tools, this`cachedSpecs
      ensures Valid() && count == |old(tools)| - |tools|
      ensures forall name :: name in tools <==> name in old(tools) && old(tools)[name].source != source
      ensures forall name | name in tools :: tools[name] == old(tools)[name]
    {
      var keys := KeysFrom(tools, source);
      count := |keys|;
      RemoveAll(keys);
      KeysAreGone(old(tools), source);
      if count > 0 {
        cachedSpecs := None;
      } else {
        assert tools == old(tools);
      }
    }

    method RemoveAll(keys: set<string>)
      modifies this`tools
      ensures tools == old(tools) - keys
    {
      var rest := keys;
      while rest != {}
        invariant rest <= keys && tools - rest == old(tools) - keys
        decreases rest
      {
        var key :| key in rest;
        tools := tools - {key};
        rest := rest - {key};
      }
      assert tools - {} == tools;
    }

    method GetTool(name: string) returns (tool: Option<Tool>)
      ensures tool == Get(config, tools, CurrentFilters(), name)
      ensures (exists i | 0 <= i < |deniedPatterns| :: config.glob(name, deniedPatterns[i])) || name !in tools ==> tool == None
    {
      ServedIff(config, tools, CurrentFilters(), name);
      if name in tools && IsAllowed(config, CurrentFilters(), name, tools[name].source) {
        return Some(tools[name].tool);
      }
      return None;
    }

    function ToolNames(): (names: set<string>)
      reads this
      ensures forall name :: name in names <==> Get(config, tools, CurrentFilters(), name).Some?
    {
      set k | k in tools && IsAllowed(config, CurrentFilters(), k, tools[k].source)
    }

    method RebuildSpecs() returns (specs: seq<Spec>)
      ensures specs == Recomputed(config, tools, CurrentFilters())
    {
      var found, due, met := map[], tools.Keys, {};
      while due != {}
        invariant met <= tools.Keys && due == tools.Keys - met
        invariant found == map k | k in met && IsAllowed(config, CurrentFilters(), k, tools[k].source) :: tools[k].tool.spec
        decreases due
      {
        var k :| k in due;
        if IsAllowed(config, CurrentFilters(), k, tools[k].source) {
          found := found[k := tools[k].tool.spec];
        }
        due, met := due - {k}, met + {k};
      }
      assert met == tools.Keys;
      assert found == AllowedSpecs(config, tools, CurrentFilters());
      specs := SortByName(found);
    }

    method ToolSpecs() returns (specs: seq<Spec>)
      requires Valid()
      modifies this`cachedSpecs
      ensures Valid() && cachedSpecs == Some(specs)
      ensures specs == Recomputed(config, tools, CurrentFilters())
      ensures forall name :: name in Names(specs) <==> Get(config, tools, CurrentFilters(), name).Some?
    {
      RecomputedIsServed(config, tools, CurrentFilters());
      if cachedSpecs.Some? {
        return cachedSpecs.value;
      }
      specs := RebuildSpecs();
      cachedSpecs := Some(specs);
    }
  }

  function KeysFrom(tools: map<string, Entry>, source: Source): set<string> {
    set k | k in tools && tools[k].source == source
  }

  lemma KeysAreGone(tools: map<string, Entry>, source: Source)
    ensures var left := tools - KeysFrom(tools, source);
            && (forall name :: name in left <==> name in tools && tools[name].source != source)
            && |KeysFrom(tools, source)| == |tools| - |left|
  {
    var left := tools - KeysFrom(tools, source);
    assert left.Keys == tools.Keys - KeysFrom(tools, source);
    assert |tools.Keys - KeysFrom(tools, source)| == |tools.Keys| - |KeysFrom(tools, source)|;
  }

  // The first tool of a name wins, and what is there already stays.
  function AddedAll(tools: map<string, Entry>, batch: seq<Tool>, source: Source): map<string, Entry>
    decreases |batch|
  {
    if batch == [] then tools
    else
      var name := batch[0].spec.name;
      AddedAll(if name in tools then tools else tools[name := Entry(batch[0], source)], batch[1..], source)
  }

  // The tool at `i` is the first one of the batch with its name.
  predicate IsFirst(batch: seq<Tool>, i: int, name: string) {
    0 <= i < |batch| && batch[i].spec.name == name && forall k | 0 <= k < i :: batch[k].spec.name != name
  }

  lemma {:induction false} AddedAllKeepsAndAdds(tools: map<string, Entry>, batch: seq<Tool>, source: Source)
    ensures var added := AddedAll(tools, batch, source);
            && (forall name | name in tools :: name in added && added[name] == tools[name])
            && (forall name | name in added && name !in tools :: exists i :: IsFirst(batch, i, name))
            && (forall i, name | IsFirst(batch, i, name) && name !in tools ::
                  name in added && added[name] == Entry(batch[i], source))
    decreases |batch|
  {
    if batch != [] {
      var first := batch[0].spec.name;
      var tools' := if first in tools then tools else tools[first := Entry(batch[0], source)];
      AddedAllKeepsAndAdds(tools', batch[1..], source);
      var added := AddedAll(tools, batch, source);
      forall name | name in added && name !in tools
        ensures exists i :: IsFirst(batch, i, name)
      {
        if name == first {
          assert IsFirst(batch, 0, name);
        } else {
          assert name in AddedAll(tools', batch[1..], source) && name !in tools';
          var i :| IsFirst(batch[1..], i, name);
          FirstInTail(batch, i + 1, name);
        }
      }
      forall i, name | IsFirst(batch, i, name) && name !in tools
        ensures name in added && added[name] == Entry(batch[i], source)
      {
        if i > 0 {
          assert batch[0].spec.name != name;
          FirstInTail(batch, i, name);
          assert IsFirst(batch[1..], i - 1, name) && name !in tools';
        } else {
          assert name in tools' && tools'[name] == Entry(batch[i], source);
        }
      }
    }
  }

  lemma FirstInTail(batch: seq<Tool>, i: int, name: string)
    requires batch != [] && batch[0].spec.name != name && i > 0
    ensures IsFirst(batch[1..], i - 1, name) <==> IsFirst(batch, i, name)
  {
    if IsFirst(batch[1..], i - 1, name) {
      forall k | 0 <= k < i
        ensures batch[k].spec.name != name
      {
        if k > 0 {
          assert batch[1..][k - 1] == batch[k];
        }
      }
    }
    if IsFirst(batch, i, name) {
      assert forall k | 0 <= k < i - 1 :: batch[1..][k] == batch[k + 1];
    }
  }

  method SortByName(found: map<string, Spec>) returns (specs: seq<Spec>)
    ensures specs == InNameOrder(found)
  {
    var names := SortKeys(found.Keys);
    specs := [];
    for i := 0 to |names|
      invariant |specs| == i
      invariant forall k | 0 <= k < i :: names[k] in found && specs[k] == found[names[k]]
    {
      assert names[i] in names;
      specs := specs + [found[names[i]]];
    }
  }
}
