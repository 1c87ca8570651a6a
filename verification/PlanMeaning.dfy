/** What the fetch plans hold, over the library and the registry files as
    loaded: which readings some applicable requirement will be judged on. */
module PlanMeaning {
  import opened Base
  import opened Verdicts
  import opened SchemaModel
  import opened SchemaScope
  import opened SchemaJudge
  import opened SchemaStability
  import opened SchemaMeaning
  import opened SchemaPlan

  /** A schema requirement of the Environment that is judged on landed data. */
  ghost predicate AsksLanded(lib: Library, env: string, r: Requirement) {
    r in lib.requirements && r.schema.Some? && r.placement != Live && (r.environments == [] || env in r.environments)
  }

  /** The registry its assertion names, the head where it tracks; or the active
      one, which a pin to another version may have fallen behind. */
  ghost predicate JudgedUnder(lib: Library, active: Option<Registry>, a: Assertion, reg: Registry) {
    var key := if a.tracking then "head" else a.version;
    || (key in lib.registries && lib.registries[key] == reg)
    || (active == Some(reg) && !a.tracking && a.version != reg.version)
  }

  ghost predicate NamesPlanned(lib: Library, env: string, key: SchemaReading) {
    exists r :: AsksLanded(lib, env, r) && key.kind in r.schema.value.signals && key.window == r.schema.value.window
  }

  ghost predicate GroupsPlanned(lib: Library, env: string, active: Option<Registry>, key: SchemaReading) {
    exists r, reg, g :: AsksLanded(lib, env, r) && JudgedUnder(lib, active, r.schema.value, reg)
      && GroupReached(reg, r.schema.value.scope, g) && LookedFor(r.schema.value, g) && key == MetricReading(r.schema.value)
  }

  ghost predicate ValuesPlanned(lib: Library, env: string, active: Option<Registry>, ev: Evidence, key: ValueReading) {
    exists r, reg, g, x, members :: AsksLanded(lib, env, r) && JudgedUnder(lib, active, r.schema.value, reg)
      && EntryReached(reg, r.schema.value.scope, g, x) && EntryKey(x) == key.attribute && Enumerates(reg, x, members) && members != []
      && key.window == r.schema.value.window && ValuesRead(r.schema.value, key.kind, key.attribute, ev)
  }

  ghost predicate LivePlanned(lib: Library, env: string, window: int) {
    exists r :: r in lib.requirements && r.schema.Some? && r.placement == Live && (r.environments == [] || env in r.environments)
      && r.schema.value.window == window
  }

  /** Every registry a plan may look into, as loaded. */
  ghost predicate LoadedLibrary(lib: Library, active: Option<Registry>) {
    (forall ref :: ref in lib.registries ==> LoadedRegistry(lib.registries[ref])) && (active.Some? ==> LoadedRegistry(active.value))
  }

  lemma NamesAsPlanned(lib: Library, env: string, key: SchemaReading)
    ensures NamesWanted(lib, env, key) <==> NamesPlanned(lib, env, key)
  {
    forall kind ensures kind in SIGNALS { SignalsAreAll(kind); }
    if NamesWanted(lib, env, key) {
      var r :| r in lib.requirements && key in NamesOf(r, env);
      assert AsksLanded(lib, env, r);
    }
    if NamesPlanned(lib, env, key) {
      var r :| AsksLanded(lib, env, r) && key.kind in r.schema.value.signals && key.window == r.schema.value.window;
      assert key == r.schema.value.ReadingOf(key.kind);
      assert key in NamesOf(r, env);
    }
  }

  lemma LiveAsPlanned(lib: Library, env: string, window: int)
    ensures LiveWanted(lib, env, window) <==> LivePlanned(lib, env, window)
  {
    if LiveWanted(lib, env, window) { var r :| r in lib.requirements && window in LiveOf(r, env); }
    if LivePlanned(lib, env, window) {
      var r :| r in lib.requirements && r.schema.Some? && r.placement == Live && (r.environments == [] || env in r.environments)
        && r.schema.value.window == window;
      assert window in LiveOf(r, env);
    }
  }

  lemma JudgedAsPlanned(lib: Library, env: string, active: Option<Registry>, r: Requirement, reg: Registry)
    requires r in lib.requirements
    ensures r.LandedSchema(env) <==> AsksLanded(lib, env, r)
    ensures r.LandedSchema(env) ==> (reg in JudgedBy(r, env, lib, active) <==> JudgedUnder(lib, active, r.schema.value, reg))
  {
  }

  lemma GroupsAsPlanned(lib: Library, env: string, active: Option<Registry>, key: SchemaReading)
    requires LoadedLibrary(lib, active)
    ensures GroupsWanted(lib, env, active, key) <==> GroupsPlanned(lib, env, active, key)
  {
    hide ScopedGroups, JudgedBy, LoadedRegistry, GroupReached, JudgedUnder;
    if GroupsWanted(lib, env, active, key) {
      var r :| r in lib.requirements && key in GroupsOf(r, env, lib, active);
      var a := r.schema.value;
      var reg :| reg in JudgedBy(r, env, lib, active) && key in GroupsReadBy(a, ScopedGroups(reg, a.scope));
      var s :| s in ScopedGroups(reg, a.scope) && Located(a, s.group) && key == a.ReadingOf(GroupKeyValue(s.group).value.0);
      JudgedAsPlanned(lib, env, active, r, reg);
      JudgedIsLoaded(lib, active, a, reg);
      GroupReachedIs(reg, a.scope, s.group);
      assert GroupReached(reg, a.scope, s.group) && LookedFor(a, s.group);
    }
    if GroupsPlanned(lib, env, active, key) {
      var r, reg, g :| AsksLanded(lib, env, r) && JudgedUnder(lib, active, r.schema.value, reg)
        && GroupReached(reg, r.schema.value.scope, g) && LookedFor(r.schema.value, g) && key == MetricReading(r.schema.value);
      var a := r.schema.value;
      JudgedAsPlanned(lib, env, active, r, reg);
      JudgedIsLoaded(lib, active, a, reg);
      GroupReachedIs(reg, a.scope, g);
      var s :| s in ScopedGroups(reg, a.scope) && s.group == g;
      assert Located(a, g) && key == a.ReadingOf(GroupKeyValue(g).value.0);
      assert key in GroupsReadBy(a, ScopedGroups(reg, a.scope));
      assert key in GroupsOf(r, env, lib, active);
    }
  }

  lemma JudgedIsLoaded(lib: Library, active: Option<Registry>, a: Assertion, reg: Registry)
    requires LoadedLibrary(lib, active) && JudgedUnder(lib, active, a, reg)
    ensures LoadedRegistry(reg)
  {
    hide LoadedRegistry;
  }

  /** The scope's demands, wherever they are: each from an entry reached, and
      every entry reached draws one with its members. */
  lemma ScopeDemandIsReached(reg: Registry, scope: Scope, d: Demand) returns (g: Group, x: Attribute)
    requires LoadedRegistry(reg) && d in DemandsIn(ScopedGroups(reg, scope))
    ensures EntryReached(reg, scope, g, x) && EntryKey(x) == d.attribute && Enumerates(reg, x, d.members)
  {
    LoadedIsValid(reg);
    var s := DemandingGroup(ScopedGroups(reg, scope), d);
    hide LoadedRegistry, ValidIds, ScopedGroups, DemandsIn, OneDefinition, BareReferences, Enumerates, DemandOf;
    ReachedDemands(reg, scope, s, d);
    g := s.group;
    x :| x in g.attributes && Reaches(reg, scope, Visit(g, Some(x))) && d == DemandOf(reg, g, x);
    EntryReachedIs(reg, scope, g, x);
    OneOf(reg, g, x);
    DemandEnumerates(reg, g, x);
  }

  lemma ReachedIsDemanded(reg: Registry, scope: Scope, g: Group, x: Attribute, members: seq<Member>) returns (d: Demand)
    requires LoadedRegistry(reg) && EntryReached(reg, scope, g, x) && Enumerates(reg, x, members)
    ensures d in DemandsIn(ScopedGroups(reg, scope)) && d.attribute == EntryKey(x) && d.members == members
  {
    LoadedIsValid(reg);
    EntryReachedIs(reg, scope, g, x);
    assert GroupReached(reg, scope, g);
    GroupReachedIs(reg, scope, g);
    OneOf(reg, g, x);
    DemandEnumerates(reg, g, x);
    var e := DemandOf(reg, g, x);
    EnumeratesOne(reg, g, x, members, e.members);
    var scoped := ScopedGroups(reg, scope);
    hide LoadedRegistry, ValidIds, ScopedGroups, DemandsIn, OneDefinition, BareReferences, Enumerates, DemandOf, EntryReached, GroupReached, Reaches, EntryKey;
    var s :| s in scoped && s.group == g;
    ReachedDemands(reg, scope, s, e);
    DeclaredIsListed(scoped, s, e);
    d :| d in DemandsIn(scoped) && d.attribute == e.attribute;
    var t := DemandingGroup(scoped, d);
    SameMembersByDefinition(reg, scope, s, e, t, d);
  }

  lemma DeclaredIsListed(scoped: seq<Scoped>, s: Scoped, e: Demand)
    requires s in scoped && e in s.demands
    ensures exists d :: d in DemandsIn(scoped) && d.attribute == e.attribute
  {
    hide DemandsIn;
    DemandsInIsTheStrictestMap(scoped);
    StrictestMeaning(Flatten(scoped));
    assert Declares(scoped, e.attribute, e.level);
    DeclaredIsInTheStrictestMap(scoped, e.attribute, e.level);
    assert Strictest(Flatten(scoped))[e.attribute] in DemandsIn(scoped);
  }

  lemma WantedIsPlanned(lib: Library, env: string, active: Option<Registry>, ev: Evidence, key: ValueReading)
    requires LoadedLibrary(lib, active) && ValuesWanted(lib, env, active, ev, key)
    ensures ValuesPlanned(lib, env, active, ev, key)
  {
    hide ScopedGroups, JudgedBy, LoadedRegistry, DemandsIn, JudgedUnder, EntryReached, Enumerates, EntryKey, LoadedLibrary;
    var r :| r in lib.requirements && key in ValuesOf(r, env, lib, active, ev);
    var a := r.schema.value;
    var reg :| reg in JudgedBy(r, env, lib, active) && key in ValuesReadBy(a, DemandsIn(ScopedGroups(reg, a.scope)), ev);
    JudgedAsPlanned(lib, env, active, r, reg);
    JudgedIsLoaded(lib, active, a, reg);
    var g, x, members := ReadByEntry(a, reg, ev, key);
  }

  lemma ReadByEntry(a: Assertion, reg: Registry, ev: Evidence, key: ValueReading) returns (g: Group, x: Attribute, members: seq<Member>)
    requires LoadedRegistry(reg) && key in ValuesReadBy(a, DemandsIn(ScopedGroups(reg, a.scope)), ev)
    ensures EntryReached(reg, a.scope, g, x) && EntryKey(x) == key.attribute && Enumerates(reg, x, members) && members != []
    ensures key.window == a.window && ValuesRead(a, key.kind, key.attribute, ev)
  {
    hide ScopedGroups, LoadedRegistry, DemandsIn, EntryReached, Enumerates, EntryKey;
    var d, kind :| d in DemandsIn(ScopedGroups(reg, a.scope)) && d.members != [] && ReadFor(a, kind, d.attribute, ev) && key == ValueKey(a, kind, d.attribute);
    assert key == ValueKey(a, kind, d.attribute);
    assert ValueKey(a, kind, d.attribute) == ValueReading(kind, a.window, d.attribute);
    g, x := ScopeDemandIsReached(reg, a.scope, d);
    members := d.members;
  }

  lemma PlannedIsWanted(lib: Library, env: string, active: Option<Registry>, ev: Evidence, key: ValueReading)
    requires LoadedLibrary(lib, active) && ValuesPlanned(lib, env, active, ev, key)
    ensures ValuesWanted(lib, env, active, ev, key)
  {
    hide ScopedGroups, JudgedBy, LoadedRegistry, DemandsIn, JudgedUnder, EntryReached, Enumerates, EntryKey, LoadedLibrary;
    SignalsAreAll(key.kind);
    var r, reg, g, x, members :| AsksLanded(lib, env, r) && JudgedUnder(lib, active, r.schema.value, reg)
      && EntryReached(reg, r.schema.value.scope, g, x) && EntryKey(x) == key.attribute && Enumerates(reg, x, members) && members != []
      && key.window == r.schema.value.window && ValuesRead(r.schema.value, key.kind, key.attribute, ev);
    var a := r.schema.value;
    JudgedAsPlanned(lib, env, active, r, reg);
    JudgedIsLoaded(lib, active, a, reg);
    var d := ReachedIsDemanded(reg, a.scope, g, x, members);
    assert ReadFor(a, key.kind, d.attribute, ev) && key == ValueKey(a, key.kind, d.attribute);
    assert key in ValuesReadBy(a, DemandsIn(ScopedGroups(reg, a.scope)), ev);
    assert key in ValuesOf(r, env, lib, active, ev);
  }

  lemma ValuesAsPlanned(lib: Library, env: string, active: Option<Registry>, ev: Evidence, key: ValueReading)
    requires LoadedLibrary(lib, active)
    ensures ValuesWanted(lib, env, active, ev, key) <==> ValuesPlanned(lib, env, active, ev, key)
  {
    hide ValuesWanted, ValuesPlanned, LoadedLibrary;
    if ValuesWanted(lib, env, active, ev, key) { WantedIsPlanned(lib, env, active, ev, key); }
    if ValuesPlanned(lib, env, active, ev, key) { PlannedIsWanted(lib, env, active, ev, key); }
  }

  /** Logs, metrics, traces: by name. */
  ghost predicate KindBefore(x: Signal, y: Signal) {
    (x == Logs && y != Logs) || (x == Metrics && y == Traces)
  }

  /** Plans come in order of window, then of signal name, then of attribute,
      with nothing twice. */
  lemma PlansAreOrdered(names: seq<SchemaReading>, values: seq<ValueReading>)
    requires Increasing(ReadingBefore, names) && Increasing(ValueBefore, values)
    ensures forall i, j :: 0 <= i < j < |names| ==>
      names[i].window < names[j].window || (names[i].window == names[j].window && KindBefore(names[i].kind, names[j].kind))
    ensures forall i, j :: 0 <= i < j < |values| ==>
      || values[i].window < values[j].window
      || (values[i].window == values[j].window && KindBefore(values[i].kind, values[j].kind))
      || (values[i].window == values[j].window && values[i].kind == values[j].kind && Less(values[i].attribute, values[j].attribute))
  {
    hide Less;
  }
}
