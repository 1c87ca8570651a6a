/** The fetch plans and the gather: which readings are taken, each once and in
    one order, and that the judgement never asks for one that was not taken. */
module SchemaPlan {
  import opened Base
  import opened Verdicts
  import opened SchemaModel
  import opened SchemaScope
  import opened SchemaJudge
  import opened SchemaStability
  import opened SchemaDrift

  // -------------------------------------------------- what the plans must hold

  function NamesOf(r: Requirement, env: string): set<SchemaReading> {
    if r.LandedSchema(env)
    then set kind | kind in SIGNALS && r.schema.value.Covers(kind) :: r.schema.value.ReadingOf(kind)
    else {}
  }

  function GroupsReadBy(a: Assertion, groups: seq<Scoped>): set<SchemaReading> {
    set s | s in groups && Located(a, s.group) :: a.ReadingOf(GroupKeyValue(s.group).value.0)
  }

  function ValuesReadBy(a: Assertion, demands: seq<Demand>, ev: Evidence): set<ValueReading> {
    set d, kind | d in demands && d.members != [] && kind in SIGNALS && ReadFor(a, kind, d.attribute, ev) :: ValueKey(a, kind, d.attribute)
  }

  /** A pin that is not the active version can fall behind it. */
  predicate CanDrift(r: Requirement, env: string, active: Registry) {
    r.LandedSchema(env) && !r.schema.value.tracking && r.schema.value.version != active.version
  }

  /** The versions one requirement may be judged against. */
  function JudgedBy(r: Requirement, env: string, lib: Library, active: Option<Registry>): seq<Registry> {
    (if r.LandedSchema(env) && r.schema.value.RegistryKey() in lib.registries
     then [lib.registries[r.schema.value.RegistryKey()]] else [])
    + (if active.Some? && CanDrift(r, env, active.value) then [active.value] else [])
  }

  function GroupsOf(r: Requirement, env: string, lib: Library, active: Option<Registry>): set<SchemaReading> {
    if !r.LandedSchema(env) then {}
    else set reg, key | reg in JudgedBy(r, env, lib, active) && key in GroupsReadBy(r.schema.value, ScopedGroups(reg, r.schema.value.scope)) :: key
  }

  function ValuesOf(r: Requirement, env: string, lib: Library, active: Option<Registry>, ev: Evidence): set<ValueReading> {
    if !r.LandedSchema(env) then {}
    else set reg, key | reg in JudgedBy(r, env, lib, active)
           && key in ValuesReadBy(r.schema.value, DemandsIn(ScopedGroups(reg, r.schema.value.scope)), ev) :: key
  }

  function LiveOf(r: Requirement, env: string): set<int> {
    if r.LiveSchema(env) then {r.schema.value.window} else {}
  }

  ghost predicate Wanted<K(!new)>(reqs: seq<Requirement>, wants: Requirement -> set<K>, key: K) {
    exists r :: r in reqs && key in wants(r)
  }

  ghost predicate NamesWanted(lib: Library, env: string, key: SchemaReading) {
    Wanted(lib.requirements, (r: Requirement) => NamesOf(r, env), key)
  }

  ghost predicate GroupsWanted(lib: Library, env: string, active: Option<Registry>, key: SchemaReading) {
    Wanted(lib.requirements, (r: Requirement) => GroupsOf(r, env, lib, active), key)
  }

  ghost predicate ValuesWanted(lib: Library, env: string, active: Option<Registry>, ev: Evidence, key: ValueReading) {
    Wanted(lib.requirements, (r: Requirement) => ValuesOf(r, env, lib, active, ev), key)
  }

  ghost predicate LiveWanted(lib: Library, env: string, window: int) {
    Wanted(lib.requirements, (r: Requirement) => LiveOf(r, env), window)
  }

  function KindOrder(kind: Signal): nat {
    match kind
    case Logs => 0
    case Metrics => 1
    case Traces => 2
  }

  predicate ReadingBefore(x: SchemaReading, y: SchemaReading) {
    x.window < y.window || (x.window == y.window && KindOrder(x.kind) < KindOrder(y.kind))
  }

  predicate ValueBefore(x: ValueReading, y: ValueReading) {
    || x.window < y.window
    || (x.window == y.window && KindOrder(x.kind) < KindOrder(y.kind))
    || (x.window == y.window && x.kind == y.kind && Less(x.attribute, y.attribute))
  }

  predicate WindowBefore(x: int, y: int) { x < y }

  lemma PlanOrders()
    ensures WeakOrder(ReadingBefore) && (forall x, y :: x != y ==> ReadingBefore(x, y) || ReadingBefore(y, x))
    ensures WeakOrder(ValueBefore) && (forall x, y :: x != y ==> ValueBefore(x, y) || ValueBefore(y, x))
    ensures WeakOrder(WindowBefore) && (forall x, y :: x != y ==> WindowBefore(x, y) || WindowBefore(y, x))
  {
    StringOrder();
  }

  // ---------------------------------------------------------------- the loops

  /** The `seen` map and the slice every plan builder keeps. */
  class PlanBuilder<K(==, !new)> {
    var seen: set<K>
    var out: seq<K>

    ghost predicate Valid()
      reads this
    {
      Distinct(out) && forall key :: key in out <==> key in seen
    }

    constructor ()
      ensures Valid() && seen == {} && fresh(this)
    {
      seen, out := {}, [];
    }

    method Add(key: K)
      requires Valid()
      modifies this
      ensures Valid() && seen == old(seen) + {key}
    {
      if key !in seen {
        seen := seen + {key};
        out := out + [key];
      }
    }
  }

  lemma SortedPlan<K(!new)>(out: seq<K>, seen: set<K>, before: (K, K) -> bool)
    requires Distinct(out) && forall key :: key in out <==> key in seen
    requires WeakOrder(before) && forall x, y :: x != y ==> before(x, y) || before(y, x)
    ensures Increasing(before, Sort(before, out)) && forall key :: key in Sort(before, out) <==> key in seen
  {
    SortDistinct(before, out);
    SortMembers(before, out);
  }

  ghost predicate Collected<K(!new)>(seen: set<K>, reqs: seq<Requirement>, wants: Requirement -> set<K>) {
    forall key :: key in seen <==> Wanted(reqs, wants, key)
  }

  lemma CollectOneMore<K(!new)>(seen: set<K>, reqs: seq<Requirement>, r: Requirement, wants: Requirement -> set<K>)
    requires Collected(seen, reqs, wants)
    ensures Collected(seen + wants(r), reqs + [r], wants)
  {
  }

  method PlanNames(lib: Library, env: string) returns (plan: seq<SchemaReading>)
    ensures Increasing(ReadingBefore, plan) && forall key :: key in plan <==> NamesWanted(lib, env, key)
  {
    var b := new PlanBuilder<SchemaReading>();
    ghost var wants := (r: Requirement) => NamesOf(r, env);
    var reqs := lib.requirements;
    for i := 0 to |reqs|
      invariant b.Valid() && Collected(b.seen, reqs[..i], wants)
    {
      CollectOneMore(b.seen, reqs[..i], reqs[i], wants);
      assert reqs[..i + 1] == reqs[..i] + [reqs[i]];
      AddNames(b, reqs[i], env);
    }
    assert reqs[..|reqs|] == reqs;
    PlanOrders();
    SortedPlan(b.out, b.seen, ReadingBefore);
    plan := Sort(ReadingBefore, b.out);
  }

  method AddNames(b: PlanBuilder<SchemaReading>, r: Requirement, env: string)
    requires b.Valid()
    modifies b
    ensures b.Valid() && b.seen == old(b.seen) + NamesOf(r, env)
  {
    if !r.LandedSchema(env) { return; }
    var a := r.schema.value;
    for j := 0 to |SIGNALS|
      invariant b.Valid()
      invariant b.seen == old(b.seen) + set kind | kind in SIGNALS[..j] && a.Covers(kind) :: a.ReadingOf(kind)
    {
      assert SIGNALS[..j + 1] == SIGNALS[..j] + [SIGNALS[j]];
      if a.Covers(SIGNALS[j]) { b.Add(a.ReadingOf(SIGNALS[j])); }
    }
    assert SIGNALS[..|SIGNALS|] == SIGNALS;
  }

  method PlanGroups(lib: Library, env: string, active: Option<Registry>) returns (plan: seq<SchemaReading>)
    ensures Increasing(ReadingBefore, plan) && forall key :: key in plan <==> GroupsWanted(lib, env, active, key)
  {
    var b := new PlanBuilder<SchemaReading>();
    ghost var wants := (r: Requirement) => GroupsOf(r, env, lib, active);
    var reqs := lib.requirements;
    hide GroupsOf, Sort, Increasing;
    for i := 0 to |reqs|
      invariant b.Valid() && Collected(b.seen, reqs[..i], wants)
    {
      CollectOneMore(b.seen, reqs[..i], reqs[i], wants);
      assert reqs[..i + 1] == reqs[..i] + [reqs[i]];
      AddGroups(b, reqs[i], env, lib, active);
    }
    assert reqs[..|reqs|] == reqs;
    PlanOrders();
    SortedPlan(b.out, b.seen, ReadingBefore);
    plan := Sort(ReadingBefore, b.out);
  }

  /** The pin's groups, then the active version's. */
  method AddGroups(b: PlanBuilder<SchemaReading>, r: Requirement, env: string, lib: Library, active: Option<Registry>)
    requires b.Valid()
    modifies b
    ensures b.Valid() && b.seen == old(b.seen) + GroupsOf(r, env, lib, active)
  {
    if !r.LandedSchema(env) { return; }
    var a, versions := r.schema.value, JudgedBy(r, env, lib, active);
    hide ScopedGroups, JudgedBy, GroupsReadBy;
    for i := 0 to |versions|
      invariant b.Valid()
      invariant b.seen == old(b.seen) + set reg, key | reg in versions[..i] && key in GroupsReadBy(a, ScopedGroups(reg, a.scope)) :: key
    {
      assert versions[..i + 1] == versions[..i] + [versions[i]];
      var scoped := ResolveScope(versions[i], a.scope);
      AddLocated(b, a, scoped);
    }
    assert versions[..|versions|] == versions;
  }

  method AddLocated(b: PlanBuilder<SchemaReading>, a: Assertion, groups: seq<Scoped>)
    requires b.Valid()
    modifies b
    ensures b.Valid() && b.seen == old(b.seen) + GroupsReadBy(a, groups)
  {
    for j := 0 to |groups|
      invariant b.Valid() && b.seen == old(b.seen) + GroupsReadBy(a, groups[..j])
    {
      assert groups[..j + 1] == groups[..j] + [groups[j]];
      hide GroupKeyValue, Located;
      LocatedHasKey(a, groups[j].group);
      if Located(a, groups[j].group) {
        b.Add(a.ReadingOf(GroupKeyValue(groups[j].group).value.0));
      }
    }
    assert groups[..|groups|] == groups;
  }

  lemma LocatedHasKey(a: Assertion, g: Group)
    ensures Located(a, g) ==> GroupKeyValue(g).Some?
  {
  }

  method PlanValues(lib: Library, env: string, active: Option<Registry>, ev: Evidence) returns (plan: seq<ValueReading>)
    ensures Increasing(ValueBefore, plan) && forall key :: key in plan <==> ValuesWanted(lib, env, active, ev, key)
  {
    var b := new PlanBuilder<ValueReading>();
    ghost var wants := (r: Requirement) => ValuesOf(r, env, lib, active, ev);
    var reqs := lib.requirements;
    for i := 0 to |reqs|
      invariant b.Valid() && Collected(b.seen, reqs[..i], wants)
    {
      CollectOneMore(b.seen, reqs[..i], reqs[i], wants);
      assert reqs[..i + 1] == reqs[..i] + [reqs[i]];
      AddValues(b, reqs[i], env, lib, active, ev);
    }
    assert reqs[..|reqs|] == reqs;
    PlanOrders();
    SortedPlan(b.out, b.seen, ValueBefore);
    plan := Sort(ValueBefore, b.out);
  }

  method AddValues(b: PlanBuilder<ValueReading>, r: Requirement, env: string, lib: Library, active: Option<Registry>, ev: Evidence)
    requires b.Valid()
    modifies b
    ensures b.Valid() && b.seen == old(b.seen) + ValuesOf(r, env, lib, active, ev)
  {
    if !r.LandedSchema(env) { return; }
    var a, versions := r.schema.value, JudgedBy(r, env, lib, active);
    hide ScopedGroups, JudgedBy, DemandsIn, ValuesReadBy;
    AddVersions(b, a, versions, ev);
  }

  method AddVersions(b: PlanBuilder<ValueReading>, a: Assertion, versions: seq<Registry>, ev: Evidence)
    requires b.Valid()
    modifies b
    ensures b.Valid() && b.seen == old(b.seen) + ValuesUnder(a, versions, ev)
  {
    hide ScopedGroups, DemandsIn, ValuesReadBy, ValuesUnder;
    assert ValuesUnder(a, versions[..0], ev) == {} by { NoVersions(a, ev); }
    for i := 0 to |versions|
      invariant b.Valid()
      invariant b.seen == old(b.seen) + ValuesUnder(a, versions[..i], ev)
    {
      assert versions[..i + 1] == versions[..i] + [versions[i]];
      ValuesUnderOneMore(a, versions[..i], versions[i], ev);
      var scoped := ResolveScope(versions[i], a.scope);
      var demands := FlattenDemands(scoped);
      AddEnums(b, a, demands, ev);
    }
    assert versions[..|versions|] == versions;
  }

  function ValuesUnder(a: Assertion, versions: seq<Registry>, ev: Evidence): set<ValueReading> {
    set reg, key | reg in versions && key in ValuesReadBy(a, DemandsIn(ScopedGroups(reg, a.scope)), ev) :: key
  }

  lemma NoVersions(a: Assertion, ev: Evidence)
    ensures ValuesUnder(a, [], ev) == {}
  {
  }

  lemma ValuesUnderOneMore(a: Assertion, versions: seq<Registry>, reg: Registry, ev: Evidence)
    ensures ValuesUnder(a, versions + [reg], ev) == ValuesUnder(a, versions, ev) + ValuesReadBy(a, DemandsIn(ScopedGroups(reg, a.scope)), ev)
  {
    hide ScopedGroups, DemandsIn, ValuesReadBy;
  }

  function EnumReadings(a: Assertion, d: Demand, kinds: seq<Signal>, ev: Evidence): set<ValueReading> {
    if d.members == [] then {}
    else set kind | kind in kinds && ReadFor(a, kind, d.attribute, ev) :: ValueKey(a, kind, d.attribute)
  }

  method AddEnums(b: PlanBuilder<ValueReading>, a: Assertion, demands: seq<Demand>, ev: Evidence)
    requires b.Valid()
    modifies b
    ensures b.Valid() && b.seen == old(b.seen) + ValuesReadBy(a, demands, ev)
  {
    for j := 0 to |demands|
      invariant b.Valid() && b.seen == old(b.seen) + ValuesReadBy(a, demands[..j], ev)
    {
      var d := demands[j];
      EnumReadingsStep(a, demands[..j], d, ev);
      assert demands[..j + 1] == demands[..j] + [d];
      hide ValuesReadBy;
      if d.members != [] { AddEnum(b, a, d, ev); }
    }
    assert demands[..|demands|] == demands;
  }

  lemma EnumReadingsStep(a: Assertion, demands: seq<Demand>, d: Demand, ev: Evidence)
    ensures ValuesReadBy(a, demands + [d], ev) == ValuesReadBy(a, demands, ev) + EnumReadings(a, d, SIGNALS, ev)
  {
  }

  method AddEnum(b: PlanBuilder<ValueReading>, a: Assertion, d: Demand, ev: Evidence)
    requires b.Valid() && d.members != []
    modifies b
    ensures b.Valid() && b.seen == old(b.seen) + EnumReadings(a, d, SIGNALS, ev)
  {
    for k := 0 to |SIGNALS|
      invariant b.Valid() && b.seen == old(b.seen) + EnumReadings(a, d, SIGNALS[..k], ev)
    {
      assert SIGNALS[..k + 1] == SIGNALS[..k] + [SIGNALS[k]];
      hide ReadFor;
      if ReadFor(a, SIGNALS[k], d.attribute, ev) { b.Add(ValueKey(a, SIGNALS[k], d.attribute)); }
    }
    assert SIGNALS[..|SIGNALS|] == SIGNALS;
  }

  method PlanLive(lib: Library, env: string) returns (plan: seq<int>)
    ensures Increasing(WindowBefore, plan) && forall key :: key in plan <==> LiveWanted(lib, env, key)
  {
    var b := new PlanBuilder<int>();
    ghost var wants := (r: Requirement) => LiveOf(r, env);
    var reqs := lib.requirements;
    for i := 0 to |reqs|
      invariant b.Valid() && Collected(b.seen, reqs[..i], wants)
    {
      CollectOneMore(b.seen, reqs[..i], reqs[i], wants);
      assert reqs[..i + 1] == reqs[..i] + [reqs[i]];
      if reqs[i].LiveSchema(env) { b.Add(reqs[i].schema.value.window); }
    }
    assert reqs[..|reqs|] == reqs;
    PlanOrders();
    SortedPlan(b.out, b.seen, WindowBefore);
    plan := Sort(WindowBefore, b.out);
  }

  // --------------------------------------------------------------- the gather

  /** Where readings come from: one function per kind of planned key. A kind
      with no function takes no readings. */
  datatype Source = Source(
    names: Option<SchemaReading -> NameSet>,
    groups: Option<SchemaReading -> NameSet>,
    values: Option<ValueReading -> DistinctValues>,
    live: Option<int -> LiveFindings>)

  function Files<K, V>(plan: seq<K>, read: Option<K -> V>): map<K, V> {
    if read.None? then map[] else map key | key in plan :: read.value(key)
  }

  const NO_EVIDENCE: Evidence := Evidence(map[], map[], map[], map[], map[], "", map[])

  /** The active version travels under its own ref, beside the library's own
      copies and never over them. */
  function Versions(lib: Library, active: Option<Registry>): map<string, Registry> {
    if active.Some? && active.value.version !in lib.registries
    then lib.registries[active.value.version := active.value]
    else lib.registries
  }

  /** What a gather leaves: each kind's readings are exactly the planned ones,
      read from the source under the key they were planned as. */
  ghost predicate Gathered(ev: Evidence, lib: Library, env: string, src: Source, active: Option<Registry>) {
    && (forall ref :: ref in ev.versions <==> ref in lib.registries || (active.Some? && active.value.version == ref))
    && (forall ref :: ref in ev.versions ==> ev.versions[ref] == if ref in lib.registries then lib.registries[ref] else active.value)
    && ev.activeVersion == (if active.Some? then active.value.version else "")
    && (forall key :: key in ev.names <==> src.names.Some? && NamesWanted(lib, env, key))
    && (forall key :: key in ev.names ==> ev.names[key] == src.names.value(key))
    && (forall key :: key in ev.groups <==> src.groups.Some? && GroupsWanted(lib, env, active, key))
    && (forall key :: key in ev.groups ==> ev.groups[key] == src.groups.value(key))
    && (forall key :: key in ev.values <==> src.values.Some? && ValuesWanted(lib, env, active, ev, key))
    && (forall key :: key in ev.values ==> ev.values[key] == src.values.value(key))
    && (forall key :: key in ev.live <==> src.live.Some? && LiveWanted(lib, env, key))
    && (forall key :: key in ev.live ==> ev.live[key] == src.live.value(key))
  }

  /** The value plan reads the name readings and nothing else. */
  lemma ValuesReadNamesOnly(r: Requirement, env: string, lib: Library, active: Option<Registry>, ev: Evidence, other: Evidence)
    requires ev.names == other.names
    ensures ValuesOf(r, env, lib, active, ev) == ValuesOf(r, env, lib, active, other)
  {
    hide ScopedGroups, DemandsIn, JudgedBy;
    forall a: Assertion, ds: seq<Demand> ensures ValuesReadBy(a, ds, ev) == ValuesReadBy(a, ds, other) {
      assert forall kind, k :: ReadFor(a, kind, k, ev) == ReadFor(a, kind, k, other);
    }
  }

  /** Some requirement applying here asks for a reading. */
  ghost predicate AsksAnything(lib: Library, env: string) {
    exists r :: r in lib.requirements && ((r.LandedSchema(env) && r.schema.value.signals != []) || r.LiveSchema(env))
  }

  lemma EmptyPlansAskNothing(lib: Library, env: string, plan: seq<SchemaReading>, livePlan: seq<int>)
    requires forall key :: key in plan <==> NamesWanted(lib, env, key)
    requires forall key :: key in livePlan <==> LiveWanted(lib, env, key)
    ensures plan == [] && livePlan == [] <==> !AsksAnything(lib, env)
  {
    if plan != [] {
      assert plan[0] in plan;
      var r :| r in lib.requirements && plan[0] in NamesOf(r, env);
      assert AsksAnything(lib, env);
    }
    if livePlan != [] {
      assert livePlan[0] in livePlan;
      assert LiveWanted(lib, env, livePlan[0]);
      var r :| r in lib.requirements && livePlan[0] in LiveOf(r, env);
      assert AsksAnything(lib, env);
    }
    if AsksAnything(lib, env) {
      var r :| r in lib.requirements && ((r.LandedSchema(env) && r.schema.value.signals != []) || r.LiveSchema(env));
      if r.LiveSchema(env) {
        PlannedLive(lib, env, r);
      } else {
        var kind := r.schema.value.signals[0];
        PlannedNames(lib, env, r, kind);
      }
    }
  }

  /** Takes the planned readings and nothing else; the value plan waits for the
      name readings it is gated on. `observed` is handed over by the caller
      beside the gathered evidence. */
  method GatherSchema(lib: Library, env: string, src: Source, active: Option<Registry>, observed: map<int, map<Signal, SignalObservation>>)
    returns (ev: Evidence)
    ensures ev.observed == observed
    ensures AsksAnything(lib, env) ==> Gathered(ev, lib, env, src, active)
    ensures !AsksAnything(lib, env) ==> ev == NO_EVIDENCE.(observed := observed)
  {
    hide ValuesWanted, GroupsWanted, NamesWanted, LiveWanted, AsksAnything, Increasing;
    var plan := PlanNames(lib, env);
    var livePlan := PlanLive(lib, env);
    EmptyPlansAskNothing(lib, env, plan, livePlan);
    if plan == [] && livePlan == [] {
      return NO_EVIDENCE.(observed := observed);
    }
    ev := Evidence(Versions(lib, active), Files(plan, src.names), map[], map[], Files(livePlan, src.live),
                   if active.Some? then active.value.version else "", observed);
    var groupPlan := PlanGroups(lib, env, active);
    ev := ev.(groups := Files(groupPlan, src.groups));
    var valuePlan := PlanValues(lib, env, active, ev);
    ghost var named := ev;
    ev := ev.(values := Files(valuePlan, src.values));
    forall key ensures ValuesWanted(lib, env, active, named, key) <==> ValuesWanted(lib, env, active, ev, key) {
      ValuePlanReadsNames(lib, env, active, named, ev, key);
    }
  }

  lemma ValuePlanReadsNames(lib: Library, env: string, active: Option<Registry>, ev: Evidence, other: Evidence, key: ValueReading)
    requires ev.names == other.names
    ensures ValuesWanted(lib, env, active, ev, key) <==> ValuesWanted(lib, env, active, other, key)
  {
    forall r ensures ValuesOf(r, env, lib, active, ev) == ValuesOf(r, env, lib, active, other) {
      ValuesReadNamesOnly(r, env, lib, active, ev, other);
    }
    hide ValuesOf;
  }

  // ------------------------------------------------------ the plan is complete

  /** Every reading one judgement against one version can ask for is there. */
  ghost predicate Covered(a: Assertion, reg: Registry, ev: Evidence) {
    && (forall kind :: a.Covers(kind) ==> a.ReadingOf(kind) in ev.names)
    && (forall s :: s in ScopedGroups(reg, a.scope) && Located(a, s.group) ==> a.ReadingOf(GroupKeyValue(s.group).value.0) in ev.groups)
    && (forall d, kind :: d in DemandsInPlay(a, reg, ev) && d.members != [] && ReadFor(a, kind, d.attribute, ev) ==>
          ValueKey(a, kind, d.attribute) in ev.values)
  }

  lemma CoveredNotes(a: Assertion, reg: Registry, ev: Evidence)
    requires Covered(a, reg, ev)
    ensures forall n :: n in SharedReading(a, ScopedGroups(reg, a.scope), ev).notes ==> !n.Uncovered()
    ensures forall d, n :: d in DemandsInPlay(a, reg, ev) && d.members != [] && n in JudgeEnum(a, d, SIGNALS, ev).notes ==> !n.Uncovered()
  {
    hide ScopedGroups, DemandsInPlay;
    forall kind, n | n in KindNotes(a, kind, ev) ensures !n.Uncovered() { }
    forall s, n | s in ScopedGroups(reg, a.scope) && n in GroupNotes(a, s.group, ev) ensures !n.Uncovered() { }
    forall d, kind, n | d in DemandsInPlay(a, reg, ev) && d.members != [] && n in ValueNotes(a, kind, d.attribute, ev)
      ensures !n.Uncovered()
    { }
  }

  /** Then no finding the judgement makes says a reading was not taken. */
  lemma CoveredJudgement(req: string, a: Assertion, reg: Registry, ev: Evidence)
    requires Covered(a, reg, ev)
    ensures forall f, n :: f in JudgeAgainst(req, a, reg, ev) && n in f.notes ==> !n.Uncovered()
  {
    var ds, shared := DemandsInPlay(a, reg, ev), SharedReading(a, ScopedGroups(reg, a.scope), ev);
    var enums := ReadEnums(a, ds, ev);
    CoveredNotes(a, reg, ev);
    forall d | d in ds && d.attribute in enums
      ensures d.members != [] && enums[d.attribute] == JudgeEnum(a, d, SIGNALS, ev)
    {
      EnumOf(a, reg, ev, d);
    }
    FourLevels(req, ds, shared, enums);
    hide ReadEnums, DemandsInPlay, SharedReading, JudgeEnum, Covered, FindingsAt, FindingsFrom;
    forall l, f, n | f in FindingsAt(req, l, ds, shared, enums) && n in f.notes ensures !n.Uncovered() {
      NotesOfFinding(req, l, ds, shared, enums, f, n);
    }
  }

  /** A finding's notes are the shared ones and those of its level's enums. */
  lemma NotesOfFinding(req: string, l: Level, ds: seq<Demand>, shared: ScopeReading, enums: map<string, EnumVerdict>, f: Finding, n: Note)
    requires f in FindingsAt(req, l, ds, shared, enums) && n in f.notes
    ensures n in shared.notes || exists d :: d in ds && d.attribute in enums && n in enums[d.attribute].notes
  {
  }

  /** A landed requirement is judged under the registry its pin, or the head it
      tracks, resolves to. */
  predicate JudgedUnderPin(req: Requirement, ev: Evidence)
    requires req.schema.Some?
  {
    req.placement != Live && ev.RegistryFor(req.schema.value).Some?
  }

  /** And under the active one when its pin is another version: what the drift
      arm judges, whether or not anything comes of it. */
  predicate JudgedUnderActive(req: Requirement, ev: Evidence)
    requires req.schema.Some?
  {
    req.placement != Live && !req.schema.value.tracking && ev.ActiveRegistry().Some? && ev.activeVersion != req.schema.value.version
  }

  /** No finding of the judgement against this registry says that no reading
      covers, kept in the verdict or not. */
  ghost predicate NothingUncovered(req: Requirement, reg: Registry, ev: Evidence)
    requires req.schema.Some?
  {
    && Covered(req.schema.value, reg, ev)
    && forall f, n :: f in JudgeAgainst(req.id, req.schema.value, reg, ev) && n in f.notes ==> !n.Uncovered()
  }

  /** The whole judgement covers: under the pin, and under the active version
      where the drift arm asks. */
  lemma CoveredSchema(req: Requirement, ev: Evidence)
    requires req.schema.Some?
    requires req.placement == Live ==> req.schema.value.window in ev.live
    requires JudgedUnderPin(req, ev) ==> Covered(req.schema.value, ev.RegistryFor(req.schema.value).value, ev)
    requires JudgedUnderActive(req, ev) ==> Covered(req.schema.value, ev.ActiveRegistry().value, ev)
    ensures forall f, n :: f in JudgeSchema(req, ev) && n in f.notes ==> !n.Uncovered()
  {
    hide JudgeAgainst, Covered, Drifts, DriftFinding;
    var a := req.schema.value;
    if req.placement == Live || ev.RegistryFor(a).None? {
      CoveredElsewhere(req, ev);
    } else {
      var reg := ev.RegistryFor(a).value;
      JudgeSchemaIs(req, ev);
      CoveredJudgement(req.id, a, reg, ev);
      var pinned := JudgeAgainst(req.id, a, reg, ev);
      if Drifts(req.id, a, reg, ev) {
        ActiveIsAsked(req, ev, reg);
        CoveredDrift(req, ev, reg);
      }
    }
  }

  /** A live placement reads only the tap; with no registry there is one
      finding, and it says that. */
  lemma CoveredElsewhere(req: Requirement, ev: Evidence)
    requires req.schema.Some?
    requires req.placement == Live || ev.RegistryFor(req.schema.value).None?
    requires req.placement == Live ==> req.schema.value.window in ev.live
    ensures forall f, n :: f in JudgeSchema(req, ev) && n in f.notes ==> !n.Uncovered()
  {
  }

  lemma ActiveIsAsked(req: Requirement, ev: Evidence, reg: Registry)
    requires req.schema.Some? && Drifts(req.id, req.schema.value, reg, ev)
    ensures !req.schema.value.tracking && ev.ActiveRegistry().Some? && ev.activeVersion != req.schema.value.version
  {
  }

  /** The drifted finding's notes come from the judgement under the active
      version. */
  lemma CoveredDrift(req: Requirement, ev: Evidence, reg: Registry)
    requires req.schema.Some? && req.placement != Live && ev.RegistryFor(req.schema.value) == Some(reg)
    requires Drifts(req.id, req.schema.value, reg, ev)
    requires Covered(req.schema.value, ev.ActiveRegistry().value, ev)
    ensures var a := req.schema.value;
      forall n :: n in DriftFinding(Verdict(req.id, a, reg, ev), a.version, ev.activeVersion, Verdict(req.id, a, ev.ActiveRegistry().value, ev)).notes
        ==> !n.Uncovered()
  {
    hide JudgeAgainst, Covered, Verdict;
    var a, active := req.schema.value, ev.ActiveRegistry().value;
    CoveredJudgement(req.id, a, active, ev);
    OneScoredFinding(req.id, a, active, ev);
    assert Verdict(req.id, a, active, ev) in JudgeAgainst(req.id, a, active, ev);
  }

  ghost predicate AllResolved(lib: Library, env: string) {
    forall r :: r in lib.requirements && r.LandedSchema(env) ==> r.schema.value.RegistryKey() in lib.registries
  }

  lemma PlannedNames(lib: Library, env: string, r: Requirement, kind: Signal)
    requires r in lib.requirements && r.LandedSchema(env) && r.schema.value.Covers(kind)
    ensures NamesWanted(lib, env, r.schema.value.ReadingOf(kind))
  {
  }

  lemma PlannedLive(lib: Library, env: string, r: Requirement)
    requires r in lib.requirements && r.LiveSchema(env)
    ensures LiveWanted(lib, env, r.schema.value.window)
  {
  }

  lemma PlannedGroups(lib: Library, env: string, active: Option<Registry>, r: Requirement, reg: Registry, s: Scoped)
    requires r in lib.requirements && r.LandedSchema(env) && reg in JudgedBy(r, env, lib, active)
    requires s in ScopedGroups(reg, r.schema.value.scope) && Located(r.schema.value, s.group)
    ensures GroupsWanted(lib, env, active, r.schema.value.ReadingOf(GroupKeyValue(s.group).value.0))
  {
    hide ScopedGroups, JudgedBy;
    var a, wants := r.schema.value, (r: Requirement) => GroupsOf(r, env, lib, active);
    assert a.ReadingOf(GroupKeyValue(s.group).value.0) in GroupsReadBy(a, ScopedGroups(reg, a.scope));
    assert a.ReadingOf(GroupKeyValue(s.group).value.0) in wants(r);
  }

  /** The value plan flattens every group the scope reaches, the judgement only
      those in play; with one definition per attribute the enum attributes of
      the second are among those of the first. */
  lemma PlannedValues(lib: Library, env: string, active: Option<Registry>, ev: Evidence, r: Requirement, reg: Registry, d: Demand, kind: Signal)
    requires r in lib.requirements && r.LandedSchema(env) && reg in JudgedBy(r, env, lib, active) && OneDefinition(reg)
    requires d in DemandsInPlay(r.schema.value, reg, ev) && d.members != [] && ReadFor(r.schema.value, kind, d.attribute, ev)
    ensures ValuesWanted(lib, env, active, ev, ValueKey(r.schema.value, kind, d.attribute))
  {
    var a, wants := r.schema.value, (r: Requirement) => ValuesOf(r, env, lib, active, ev);
    var all := ScopedGroups(reg, a.scope);
    var e := EnumIsPlanned(a, reg, ev, d);
    SignalsAreAll(kind);
    hide ScopedGroups, DemandsIn, DemandsInPlay, JudgedBy, OneDefinition, ReadFor;
    assert ReadFor(a, kind, e.attribute, ev);
    assert ValueKey(a, kind, d.attribute) in ValuesReadBy(a, DemandsIn(all), ev);
    assert ValueKey(a, kind, d.attribute) in wants(r);
  }

  lemma EnumIsPlanned(a: Assertion, reg: Registry, ev: Evidence, d: Demand) returns (e: Demand)
    requires OneDefinition(reg) && d in DemandsInPlay(a, reg, ev) && d.members != []
    ensures e in DemandsIn(ScopedGroups(reg, a.scope)) && e.attribute == d.attribute && e.members == d.members
  {
    var all := ScopedGroups(reg, a.scope);
    var s := DemandingGroup(ReadGroups(a, all, ev).inPlay, d);
    InPlayMeaning(a, all, ev, s);
    assert d in Flatten(all);
    StrictestMeaning(Flatten(all));
    DemandsInIsTheStrictestMap(all);
    e := Strictest(Flatten(all))[d.attribute];
    hide ScopedGroups, ReadGroups, DemandsIn, OneDefinition, Strictest, Flatten, DemandsInPlay;
    assert e in DemandsIn(all);
    var t := DemandingGroup(all, e);
    SameMembersByDefinition(reg, a.scope, s, d, t, e);
  }

  lemma GatheredCovers(lib: Library, env: string, src: Source, active: Option<Registry>, ev: Evidence, r: Requirement, reg: Registry)
    requires Gathered(ev, lib, env, src, active)
    requires src.names.Some? && src.groups.Some? && src.values.Some?
    requires r in lib.requirements && r.LandedSchema(env) && reg in JudgedBy(r, env, lib, active) && OneDefinition(reg)
    ensures Covered(r.schema.value, reg, ev)
  {
    var a := r.schema.value;
    hide OneDefinition, NamesWanted, GroupsWanted, ValuesWanted, LiveWanted, ScopedGroups, DemandsInPlay, JudgedBy;
    forall kind | a.Covers(kind) ensures a.ReadingOf(kind) in ev.names {
      PlannedNames(lib, env, r, kind);
    }
    forall s | s in ScopedGroups(reg, a.scope) && Located(a, s.group)
      ensures a.ReadingOf(GroupKeyValue(s.group).value.0) in ev.groups
    {
      PlannedGroups(lib, env, active, r, reg, s);
    }
    forall d, kind | d in DemandsInPlay(a, reg, ev) && d.members != [] && ReadFor(a, kind, d.attribute, ev)
      ensures ValueKey(a, kind, d.attribute) in ev.values
    {
      PlannedValues(lib, env, active, ev, r, reg, d, kind);
    }
  }

  /** The notes that say no reading covers: one for each kind of planned key. */
  lemma UncoveredNotesAre(n: Note)
    ensures n.Uncovered() <==>
      || (exists reading :: n == NoNameReading(reading)) || (exists reading, group :: n == NoGroupReading(reading, group))
      || (exists value :: n == NoValueReading(value)) || (exists window :: n == NoLiveReading(window))
  {
  }

  /** The plan covers the evaluator. With every source set, every reference
      resolved, one definition per attribute and no other copy of the active
      version filed under its ref, no lookup of any applicable schema
      requirement reaches a reading nobody took: not those of a landed one's
      judgement under its pin, not those of its judgement under the active
      version, which only a drift would show, and not a live one's window. */
  lemma PlanCoversEvaluation(lib: Library, env: string, src: Source, active: Option<Registry>, ev: Evidence, r: Requirement)
    requires if AsksAnything(lib, env) then Gathered(ev, lib, env, src, active) else ev == NO_EVIDENCE.(observed := ev.observed)
    requires src.names.Some? && src.groups.Some? && src.values.Some? && src.live.Some?
    requires AllResolved(lib, env)
    requires forall ref :: ref in lib.registries ==> OneDefinition(lib.registries[ref])
    requires active.Some? ==> OneDefinition(active.value)
    requires active.Some? && active.value.version in lib.registries ==> lib.registries[active.value.version] == active.value
    requires r in lib.requirements && r.schema.Some? && r.AppliesTo(env)
    ensures JudgedUnderPin(r, ev) ==> NothingUncovered(r, ev.RegistryFor(r.schema.value).value, ev)
    ensures JudgedUnderActive(r, ev) ==> NothingUncovered(r, ev.ActiveRegistry().value, ev)
    ensures r.placement == Live ==> r.schema.value.window in ev.live
    ensures forall f, n :: f in JudgeSchema(r, ev) && n in f.notes ==> !n.Uncovered()
  {
    var a := r.schema.value;
    if r.placement == Live {
      PlannedLive(lib, env, r);
    } else if AsksAnything(lib, env) {
      var reg := lib.registries[a.RegistryKey()];
      assert ev.RegistryFor(a) == Some(reg);
      assert reg in JudgedBy(r, env, lib, active);
      GatheredCovers(lib, env, src, active, ev, r, reg);
      if !a.tracking && ev.ActiveRegistry().Some? && ev.activeVersion != a.version {
        assert ev.ActiveRegistry() == active;
        assert active.value in JudgedBy(r, env, lib, active);
        GatheredCovers(lib, env, src, active, ev, r, active.value);
      }
    }
    hide Gathered, JudgedBy, OneDefinition, Covered, JudgeSchema, JudgeAgainst;
    CoveredSchema(r, ev);
    if JudgedUnderPin(r, ev) { CoveredJudgement(r.id, a, ev.RegistryFor(a).value, ev); }
    if JudgedUnderActive(r, ev) { CoveredJudgement(r.id, a, ev.ActiveRegistry().value, ev); }
  }
}
