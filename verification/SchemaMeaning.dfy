/** The required-level verdict over the readings themselves and the registry
    file as loaded: what each outcome takes, said without the evaluator's own
    intermediate readings. */
module SchemaMeaning {
  import opened Base
  import opened Verdicts
  import opened SchemaModel
  import opened SchemaScope
  import opened SchemaJudge
  import opened SchemaStability

  // ------------------------------------------------- the registry, as loaded

  /** The key an entry stands under: the attribute it defines or the one it
      refers to. */
  ghost function EntryKey(x: Attribute): string { if x.id == "" then x.ref else x.id }

  /** What validating a registry establishes of ids and keys, and that a
      reference to nothing in it states no members. */
  ghost predicate LoadedRegistry(reg: Registry) {
    && (forall g, x :: g in reg.groups && x in g.attributes ==> (x.id == "") != (x.ref == ""))
    && (forall i, j :: 0 <= i < j < |reg.groups| ==> reg.groups[i].id != reg.groups[j].id)
    && (forall g, i, j :: g in reg.groups && 0 <= i < j < |g.attributes| ==> EntryKey(g.attributes[i]) != EntryKey(g.attributes[j]))
    && (forall g, x, h, y ::
          g in reg.groups && x in g.attributes && h in reg.groups && y in h.attributes && x.id != "" && x.id == y.id ==>
            g.id == h.id && x == y)
    && (forall g, x :: g in reg.groups && x in g.attributes && x.id == "" && !Defined(reg, x.ref) ==> x.members == [])
  }

  ghost predicate Defined(reg: Registry, id: string) {
    exists g, x :: g in reg.groups && x in g.attributes && x.id != "" && x.id == id
  }

  lemma LoadedIsValid(reg: Registry)
    requires LoadedRegistry(reg)
    ensures ValidIds(reg) && BareReferences(reg) && OneDefinition(reg)
  {
    LoadedHasValidIds(reg);
    LoadedHasBareReferences(reg);
    hide LoadedRegistry, ValidIds, BareReferences, OneDefinition;
    ValidRegistryHasOneDefinition(reg);
  }

  lemma LoadedHasValidIds(reg: Registry)
    requires LoadedRegistry(reg)
    ensures ValidIds(reg)
  {
    forall g, i, j | g in reg.groups && 0 <= i < j < |g.attributes| ensures g.attributes[i].Key() != g.attributes[j].Key() {
      assert EntryKey(g.attributes[i]) != EntryKey(g.attributes[j]);
    }
    hide Attribute.Key;
    forall g, x, h, y | g in reg.groups && x in g.attributes && h in reg.groups && y in h.attributes && x.Defines() && y.Defines() && x.id == y.id
      ensures g.id == h.id && x == y
    {
    }
  }

  lemma LoadedHasBareReferences(reg: Registry)
    requires LoadedRegistry(reg)
    ensures BareReferences(reg)
  {
    forall g, x | g in reg.groups && x in g.attributes && !x.Defines() && reg.FindAttribute(x.ref).None? ensures x.members == [] {
      assert !Defined(reg, x.ref);
    }
  }

  /** The members an entry is judged by: its own when it defines the attribute,
      the definition's when it refers to one. */
  ghost predicate Enumerates(reg: Registry, x: Attribute, members: seq<Member>) {
    if x.id != "" then members == x.members
    else if Defined(reg, x.ref) then exists g, y :: g in reg.groups && y in g.attributes && y.id == x.ref && members == y.members
    else members == x.members
  }

  lemma DemandEnumerates(reg: Registry, g: Group, x: Attribute)
    requires g in reg.groups && x in g.attributes && (x.id == "") != (x.ref == "")
    ensures Enumerates(reg, x, DemandOf(reg, g, x).members)
    ensures DemandOf(reg, g, x).attribute == EntryKey(x)
    ensures DemandOf(reg, g, x).level == StatedLevel(x)
  {
    if x.id == "" {
      var def := reg.FindAttribute(x.ref);
      if def.Some? {
        var h :| h in reg.groups && h.id == def.value.1 && def.value.0 in h.attributes;
        assert Defined(reg, x.ref);
      }
    }
  }

  /** An entry that states no level of the vocabulary is recommended. */
  ghost function StatedLevel(x: Attribute): Level {
    match x.level
    case Some(l) => l
    case None => Recommended
  }

  // -------------------------------------------------------- reached, in play

  /** The namespace itself, or it and a dot and whatever follows. */
  ghost predicate InNamespace(key: string, ns: string) {
    key == ns || exists rest :: key == ns + "." + rest
  }

  lemma UnderIsInNamespace(key: string, ns: string)
    ensures Under(key, ns) <==> InNamespace(key, ns)
  {
    if Under(key, ns) && key != ns { assert key == ns + "." + key[|ns| + 1..]; }
    if rest :| key == ns + "." + rest { assert key[|ns|] == '.' && key[..|ns|] == ns; }
  }

  /** The scope reaches the entry: its group is named, or its key is in a
      namespace. */
  ghost predicate EntryReached(reg: Registry, scope: Scope, g: Group, x: Attribute) {
    && g in reg.groups && x in g.attributes
    && (g.id in scope.groups || exists ns :: ns in scope.namespaces && InNamespace(EntryKey(x), ns))
  }

  ghost predicate GroupReached(reg: Registry, scope: Scope, g: Group) {
    (g in reg.groups && g.id in scope.groups) || exists x :: EntryReached(reg, scope, g, x)
  }

  lemma EntryReachedIs(reg: Registry, scope: Scope, g: Group, x: Attribute)
    requires LoadedRegistry(reg)
    ensures EntryReached(reg, scope, g, x) <==> x in g.attributes && Reaches(reg, scope, Visit(g, Some(x)))
  {
    FoundById(reg, g);
    if g in reg.groups && x in g.attributes {
      assert x.Key() == EntryKey(x);
      forall ns ensures Under(x.Key(), ns) <==> InNamespace(EntryKey(x), ns) { UnderIsInNamespace(x.Key(), ns); }
    }
    hide LoadedRegistry, InNamespace, Under;
  }

  lemma FoundById(reg: Registry, g: Group)
    requires LoadedRegistry(reg)
    ensures reg.FindGroup(g.id) == Some(g) <==> g in reg.groups
  {
    if g in reg.groups {
      var f := reg.FindGroup(g.id).value;
      var i :| 0 <= i < |reg.groups| && reg.groups[i] == g;
      var j :| 0 <= j < |reg.groups| && reg.groups[j] == f;
    }
  }

  lemma GroupReachedIs(reg: Registry, scope: Scope, g: Group)
    requires LoadedRegistry(reg)
    ensures GroupReached(reg, scope, g) <==> exists s :: s in ScopedGroups(reg, scope) && s.group == g
  {
    LoadedIsValid(reg);
    ReachedGroups(reg, scope, g);
    hide LoadedRegistry, ValidIds, ScopedGroups, OnePerGroup, OneDefinition, BareReferences, Reaches, GroupReached;
    if GroupReached(reg, scope, g) { var v := ReachedVisit(reg, scope, g); }
    if v :| Reaches(reg, scope, v) && v.group == g { VisitReaches(reg, scope, v); }
  }

  lemma ReachedVisit(reg: Registry, scope: Scope, g: Group) returns (v: Visit)
    requires LoadedRegistry(reg) && GroupReached(reg, scope, g)
    ensures Reaches(reg, scope, v) && v.group == g
  {
    FoundById(reg, g);
    hide LoadedRegistry;
    if g in reg.groups && g.id in scope.groups {
      v := Visit(g, None);
    } else {
      var x :| EntryReached(reg, scope, g, x);
      EntryReachedIs(reg, scope, g, x);
      v := Visit(g, Some(x));
    }
  }

  lemma VisitReaches(reg: Registry, scope: Scope, v: Visit)
    requires LoadedRegistry(reg) && Reaches(reg, scope, v)
    ensures GroupReached(reg, scope, v.group)
  {
    FoundById(reg, v.group);
    hide LoadedRegistry;
    match v.attribute
    case None =>
    case Some(x) => EntryReachedIs(reg, scope, v.group, x);
  }

  /** A metric group with a name can be looked for where metrics are covered;
      no other group can. */
  ghost predicate LookedFor(a: Assertion, g: Group) {
    g.kind == MetricGroup && g.metricName != "" && Metrics in a.signals
  }

  ghost function MetricReading(a: Assertion): SchemaReading { SchemaReading(Metrics, a.window) }

  ghost predicate GroupSeen(a: Assertion, g: Group, ev: Evidence) {
    !LookedFor(a, g) ||
    (MetricReading(a) in ev.groups && ev.groups[MetricReading(a)].known && g.metricName in ev.groups[MetricReading(a)].names)
  }

  ghost predicate GroupGone(a: Assertion, g: Group, ev: Evidence) {
    && LookedFor(a, g) && MetricReading(a) in ev.groups
    && ev.groups[MetricReading(a)].known && !ev.groups[MetricReading(a)].truncated
    && g.metricName !in ev.groups[MetricReading(a)].names
  }

  lemma GroupArrival(a: Assertion, g: Group, ev: Evidence)
    ensures ArrivalOf(a, g, ev) == if GroupSeen(a, g, ev) then InPlay else if GroupGone(a, g, ev) then Absent else Unsure
  {
  }

  /** An attribute is asked at a level by an entry the scope reaches in a group
      that is seen. */
  ghost predicate AskedBy(a: Assertion, reg: Registry, ev: Evidence, g: Group, x: Attribute, level: Level) {
    EntryReached(reg, a.scope, g, x) && GroupSeen(a, g, ev) && StatedLevel(x) == level
  }

  // ----------------------------------------------------- the readings, raw

  ghost function NameReading(a: Assertion, kind: Signal): SchemaReading { SchemaReading(kind, a.window) }

  /** A name reading of a covered signal that could be taken. */
  ghost predicate NamesKnown(a: Assertion, kind: Signal, ev: Evidence) {
    kind in a.signals && NameReading(a, kind) in ev.names && ev.names[NameReading(a, kind)].known
  }

  /** The signal landed: as its presence reading says, or with none as its
      names do. */
  ghost predicate SignalLanded(a: Assertion, kind: Signal, ev: Evidence)
    requires NameReading(a, kind) in ev.names
  {
    if a.window in ev.observed && kind in ev.observed[a.window] && ev.observed[a.window][kind].known
    then ev.observed[a.window][kind].present
    else exists n :: n in ev.names[NameReading(a, kind)].names
  }

  lemma SignalReadings(a: Assertion, kind: Signal, ev: Evidence)
    ensures Silent(a, kind, ev) <==> NamesKnown(a, kind, ev) && !SignalLanded(a, kind, ev)
    ensures Usable(a, kind, ev) <==> NamesKnown(a, kind, ev) && SignalLanded(a, kind, ev)
    ensures Blind(a, kind, ev) <==> kind in a.signals && !NamesKnown(a, kind, ev)
  {
    if NameReading(a, kind) in ev.names {
      var names := ev.names[NameReading(a, kind)].names;
      assert names != [] ==> names[0] in names;
    }
  }

  /** The attribute is named by a signal that landed. */
  ghost predicate InUseAnywhere(a: Assertion, ev: Evidence, key: string) {
    exists kind :: NamesKnown(a, kind, ev) && SignalLanded(a, kind, ev) && key in ev.names[NameReading(a, kind)].names
  }

  ghost predicate AnythingLanded(a: Assertion, ev: Evidence) {
    exists kind :: NamesKnown(a, kind, ev) && SignalLanded(a, kind, ev)
  }

  ghost predicate SomethingCutShort(a: Assertion, ev: Evidence) {
    exists kind :: NamesKnown(a, kind, ev) && SignalLanded(a, kind, ev) && ev.names[NameReading(a, kind)].truncated
  }

  // ------------------------------------------------------------ enum values

  /** A member states its value, or its id when it states none. */
  ghost predicate Declared(members: seq<Member>, v: string) {
    || (v != "" && exists m :: m in members && m.value == v)
    || (v != "" && exists m :: m in members && m.value == "" && m.id == v)
  }

  /** The signal's name reading has the attribute, so its values are read. */
  ghost predicate ValuesRead(a: Assertion, kind: Signal, key: string, ev: Evidence) {
    NamesKnown(a, kind, ev) && key in ev.names[NameReading(a, kind)].names
  }

  /** A known value reading holds a value no member declares. */
  ghost predicate HoldsUndeclared(a: Assertion, members: seq<Member>, kind: Signal, key: string, ev: Evidence) {
    && ValuesRead(a, kind, key, ev)
    && ValueReading(kind, a.window, key) in ev.values && ev.values[ValueReading(kind, a.window, key)].known
    && exists v :: v in ev.values[ValueReading(kind, a.window, key)].values && !Declared(members, v)
  }

  /** The values cannot vouch for themselves: not read, not known, or not all
      of them. */
  ghost predicate ValuesInDoubt(a: Assertion, kind: Signal, key: string, ev: Evidence) {
    && ValuesRead(a, kind, key, ev)
    && (ValueReading(kind, a.window, key) !in ev.values
        || !ev.values[ValueReading(kind, a.window, key)].known || ev.values[ValueReading(kind, a.window, key)].truncated)
  }

  lemma DeclaredAre(members: seq<Member>, v: string)
    ensures v in DeclaredValues(members) <==> Declared(members, v)
  {
    if v in DeclaredValues(members) {
      var m :| m in members && (m.value != "" || m.id != "") && v == if m.value != "" then m.value else m.id;
    }
    if v != "" {
      if m :| m in members && m.value == v { assert v in DeclaredValues(members); }
      if m :| m in members && m.value == "" && m.id == v { assert v in DeclaredValues(members); }
    }
  }

  /** A value reading breaches its demand exactly when it is known, of an
      attribute in use, and holds a value that no member states, as its value
      or, stating none, as its id. */
  lemma EnumBreachExactly(a: Assertion, d: Demand, kind: Signal, ev: Evidence)
    ensures CarriesUndeclared(a, d, kind, ev) <==> d.members != [] && HoldsUndeclared(a, d.members, kind, d.attribute, ev)
    ensures ReadFor(a, kind, d.attribute, ev) && Unproven(a, kind, d.attribute, ev) <==> ValuesInDoubt(a, kind, d.attribute, ev)
  {
    forall v ensures v in DeclaredValues(d.members) <==> Declared(d.members, v) { DeclaredAre(d.members, v); }
    var key := ValueReading(kind, a.window, d.attribute);
    assert ReadFor(a, kind, d.attribute, ev) <==> ValuesRead(a, kind, d.attribute, ev);
    hide DeclaredValues, Declared, ReadFor, ValuesRead;
    if HoldsUndeclared(a, d.members, kind, d.attribute, ev) {
      var v :| v in ev.values[key].values && !Declared(d.members, v);
      assert v in UndeclaredOn(a, d, kind, ev);
    }
    if UndeclaredOn(a, d, kind, ev) != {} {
      var v :| v in UndeclaredOn(a, d, kind, ev);
    }
  }

  // -------------------------------------------------------------- the verdict

  /** Part of what is covered certainly did not arrive. */
  ghost predicate SomethingLost(a: Assertion, reg: Registry, ev: Evidence) {
    || (exists kind :: NamesKnown(a, kind, ev) && !SignalLanded(a, kind, ev))
    || (exists g :: GroupReached(reg, a.scope, g) && GroupGone(a, g, ev))
  }

  /** Part of it nobody can see. */
  ghost predicate SomethingUnseen(a: Assertion, reg: Registry, ev: Evidence) {
    || (exists kind :: kind in a.signals && !NamesKnown(a, kind, ev))
    || (exists g :: GroupReached(reg, a.scope, g) && !GroupSeen(a, g, ev) && !GroupGone(a, g, ev))
  }

  /** A required attribute nothing that landed names. */
  ghost predicate RequiredUnnamed(a: Assertion, reg: Registry, ev: Evidence) {
    exists g, x :: AskedBy(a, reg, ev, g, x, Required) && !InUseAnywhere(a, ev, EntryKey(x))
  }

  /** A required enum attribute carrying a value nobody declared. */
  ghost predicate RequiredUndeclared(a: Assertion, reg: Registry, ev: Evidence) {
    exists g, x, members, kind ::
      && AskedBy(a, reg, ev, g, x, Required) && Enumerates(reg, x, members) && members != []
      && HoldsUndeclared(a, members, kind, EntryKey(x), ev)
  }

  /** A required enum attribute whose values cannot be vouched for. */
  ghost predicate RequiredInDoubt(a: Assertion, reg: Registry, ev: Evidence) {
    exists g, x, members, kind ::
      && AskedBy(a, reg, ev, g, x, Required) && Enumerates(reg, x, members) && members != []
      && ValuesInDoubt(a, kind, EntryKey(x), ev)
  }

  /** A demand is drawn from an entry of its level in a group that is seen. */
  lemma DemandIsAsked(a: Assertion, reg: Registry, ev: Evidence, s: Scoped, d: Demand) returns (g: Group, x: Attribute)
    requires LoadedRegistry(reg) && s in ReadGroups(a, ScopedGroups(reg, a.scope), ev).inPlay && d in s.demands
    ensures AskedBy(a, reg, ev, g, x, d.level) && EntryKey(x) == d.attribute && Enumerates(reg, x, d.members)
  {
    LoadedIsValid(reg);
    var scoped := ScopedGroups(reg, a.scope);
    hide LoadedRegistry, ValidIds, ScopedGroups, ReadGroups, DemandsIn, ArrivalOf, OneDefinition, BareReferences, Enumerates, DemandOf;
    InPlayMeaning(a, scoped, ev, s);
    ReachedDemands(reg, a.scope, s, d);
    g := s.group;
    x :| x in g.attributes && Reaches(reg, a.scope, Visit(g, Some(x))) && d == DemandOf(reg, g, x);
    EntryReachedIs(reg, a.scope, g, x);
    GroupArrival(a, g, ev);
    OneOf(reg, g, x);
    DemandEnumerates(reg, g, x);
  }

  /** A required demand is drawn from a required entry, and every such entry
      draws one, with its members. */
  lemma RequiredDemandIsAsked(a: Assertion, reg: Registry, ev: Evidence, d: Demand) returns (g: Group, x: Attribute)
    requires LoadedRegistry(reg) && RequiredDemand(a, reg, ev, d)
    ensures AskedBy(a, reg, ev, g, x, Required) && EntryKey(x) == d.attribute && Enumerates(reg, x, d.members)
  {
    hide LoadedRegistry, ScopedGroups, ReadGroups, DemandsIn, AskedBy, Enumerates;
    var s := DemandingGroup(ReadGroups(a, ScopedGroups(reg, a.scope), ev).inPlay, d);
    g, x := DemandIsAsked(a, reg, ev, s, d);
  }

  lemma OneOf(reg: Registry, g: Group, x: Attribute)
    requires LoadedRegistry(reg) && g in reg.groups && x in g.attributes
    ensures (x.id == "") != (x.ref == "")
  {
  }

  /** And an entry in play declares its key at its level. */
  lemma AskedIsDeclared(a: Assertion, reg: Registry, ev: Evidence, g: Group, x: Attribute, level: Level) returns (s: Scoped)
    requires LoadedRegistry(reg) && AskedBy(a, reg, ev, g, x, level)
    ensures s in ScopedGroups(reg, a.scope) && s in ReadGroups(a, ScopedGroups(reg, a.scope), ev).inPlay && DemandOf(reg, g, x) in s.demands
    ensures DemandOf(reg, g, x).attribute == EntryKey(x) && DemandOf(reg, g, x).level == level && Enumerates(reg, x, DemandOf(reg, g, x).members)
    ensures Declares(ReadGroups(a, ScopedGroups(reg, a.scope), ev).inPlay, EntryKey(x), level)
  {
    LoadedIsValid(reg);
    EntryReachedIs(reg, a.scope, g, x);
    GroupReachedIs(reg, a.scope, g);
    GroupArrival(a, g, ev);
    OneOf(reg, g, x);
    DemandEnumerates(reg, g, x);
    var scoped, e := ScopedGroups(reg, a.scope), DemandOf(reg, g, x);
    hide LoadedRegistry, ValidIds, ScopedGroups, ReadGroups, DemandsIn, ArrivalOf, OneDefinition, BareReferences, Enumerates, DemandOf,
      GroupReached, EntryReached, Reaches;
    s :| s in scoped && s.group == g;
    ReachedDemands(reg, a.scope, s, e);
    InPlayMeaning(a, scoped, ev, s);
  }

  lemma AskedIsARequiredDemand(a: Assertion, reg: Registry, ev: Evidence, g: Group, x: Attribute, members: seq<Member>) returns (d: Demand)
    requires LoadedRegistry(reg) && AskedBy(a, reg, ev, g, x, Required) && Enumerates(reg, x, members)
    ensures RequiredDemand(a, reg, ev, d) && d.attribute == EntryKey(x) && d.members == members
  {
    LoadedIsValid(reg);
    var s := AskedIsDeclared(a, reg, ev, g, x, Required);
    var scoped, e := ScopedGroups(reg, a.scope), DemandOf(reg, g, x);
    var inPlay := ReadGroups(a, scoped, ev).inPlay;
    EnumeratesOne(reg, g, x, members, e.members);
    hide LoadedRegistry, ValidIds, ScopedGroups, ReadGroups, DemandsIn, ArrivalOf, OneDefinition, BareReferences, Enumerates, DemandOf, Declares,
      EntryReached;
    StrictestLevelWins(inPlay, e.attribute, Required);
    d :| d in DemandsIn(inPlay) && d.attribute == e.attribute && d.level == Required;
    var t := DemandingGroup(inPlay, d);
    InPlayMeaning(a, scoped, ev, t);
    SameMembersByDefinition(reg, a.scope, s, e, t, d);
  }

  lemma EnumeratesOne(reg: Registry, g: Group, x: Attribute, m: seq<Member>, n: seq<Member>)
    requires LoadedRegistry(reg) && g in reg.groups && x in g.attributes && Enumerates(reg, x, m) && Enumerates(reg, x, n)
    ensures m == n
  {
  }

  lemma SomeMembers(reg: Registry, g: Group, x: Attribute) returns (members: seq<Member>)
    requires LoadedRegistry(reg) && g in reg.groups && x in g.attributes
    ensures Enumerates(reg, x, members)
  {
    OneOf(reg, g, x);
    DemandEnumerates(reg, g, x);
    members := DemandOf(reg, g, x).members;
  }

  lemma PartsOverReadings(a: Assertion, reg: Registry, ev: Evidence)
    requires LoadedRegistry(reg)
    ensures RequiredMissing(a, reg, ev) <==> RequiredUnnamed(a, reg, ev)
    ensures RequiredBreach(a, reg, ev) <==> RequiredUndeclared(a, reg, ev)
    ensures RequiredDoubt(a, reg, ev) <==> RequiredInDoubt(a, reg, ev)
  {
    hide LoadedRegistry, RequiredDemand, Enumerates, HoldsUndeclared, ValuesInDoubt, CarriesUndeclared, ReadFor, Unproven,
      InUseSomewhere, InUseAnywhere, AskedBy;
    forall k ensures InUseSomewhere(a, ev, k) <==> InUseAnywhere(a, ev, k) { InUseIs(a, ev, k); }
    forall d, kind
      ensures CarriesUndeclared(a, d, kind, ev) <==> d.members != [] && HoldsUndeclared(a, d.members, kind, d.attribute, ev)
      ensures ReadFor(a, kind, d.attribute, ev) && Unproven(a, kind, d.attribute, ev) <==> ValuesInDoubt(a, kind, d.attribute, ev)
    {
      EnumBreachExactly(a, d, kind, ev);
    }
    PartsOfDemands(a, reg, ev);
    PartsOfEntries(a, reg, ev);
  }

  lemma InUseIs(a: Assertion, ev: Evidence, k: string)
    ensures InUseSomewhere(a, ev, k) <==> InUseAnywhere(a, ev, k)
  {
    forall kind { SignalReadings(a, kind, ev); }
    hide Silent, Usable, Blind, SignalLanded;
    if kind :| Names(a, kind, ev, k) { assert NamesKnown(a, kind, ev) && SignalLanded(a, kind, ev); }
    if kind :| NamesKnown(a, kind, ev) && SignalLanded(a, kind, ev) && k in ev.names[NameReading(a, kind)].names {
      assert Names(a, kind, ev, k);
    }
  }

  lemma PartsOfDemands(a: Assertion, reg: Registry, ev: Evidence)
    requires LoadedRegistry(reg)
    ensures (exists d :: RequiredDemand(a, reg, ev, d) && !InUseAnywhere(a, ev, d.attribute)) ==> RequiredUnnamed(a, reg, ev)
    ensures (exists d, kind :: RequiredDemand(a, reg, ev, d) && d.members != [] && HoldsUndeclared(a, d.members, kind, d.attribute, ev))
      ==> RequiredUndeclared(a, reg, ev)
    ensures (exists d, kind :: RequiredDemand(a, reg, ev, d) && d.members != [] && ValuesInDoubt(a, kind, d.attribute, ev))
      ==> RequiredInDoubt(a, reg, ev)
  {
    hide LoadedRegistry, RequiredDemand, Enumerates, HoldsUndeclared, ValuesInDoubt, InUseAnywhere, AskedBy;
    if d :| RequiredDemand(a, reg, ev, d) && !InUseAnywhere(a, ev, d.attribute) {
      var g, x := RequiredDemandIsAsked(a, reg, ev, d);
    }
    if d, kind :| RequiredDemand(a, reg, ev, d) && d.members != [] && HoldsUndeclared(a, d.members, kind, d.attribute, ev) {
      var g, x := RequiredDemandIsAsked(a, reg, ev, d);
    }
    if d, kind :| RequiredDemand(a, reg, ev, d) && d.members != [] && ValuesInDoubt(a, kind, d.attribute, ev) {
      var g, x := RequiredDemandIsAsked(a, reg, ev, d);
    }
  }

  lemma PartsOfEntries(a: Assertion, reg: Registry, ev: Evidence)
    requires LoadedRegistry(reg)
    ensures RequiredUnnamed(a, reg, ev) ==> exists d :: RequiredDemand(a, reg, ev, d) && !InUseAnywhere(a, ev, d.attribute)
    ensures RequiredUndeclared(a, reg, ev) ==>
      exists d, kind :: RequiredDemand(a, reg, ev, d) && d.members != [] && HoldsUndeclared(a, d.members, kind, d.attribute, ev)
    ensures RequiredInDoubt(a, reg, ev) ==>
      exists d, kind :: RequiredDemand(a, reg, ev, d) && d.members != [] && ValuesInDoubt(a, kind, d.attribute, ev)
  {
    hide LoadedRegistry, RequiredDemand, Enumerates, HoldsUndeclared, ValuesInDoubt, InUseAnywhere;
    if RequiredUnnamed(a, reg, ev) {
      var g, x :| AskedBy(a, reg, ev, g, x, Required) && !InUseAnywhere(a, ev, EntryKey(x));
      var members := SomeMembers(reg, g, x);
      var d := AskedIsARequiredDemand(a, reg, ev, g, x, members);
    }
    if RequiredUndeclared(a, reg, ev) {
      var g, x, members, kind :| AskedBy(a, reg, ev, g, x, Required) && Enumerates(reg, x, members) && members != []
        && HoldsUndeclared(a, members, kind, EntryKey(x), ev);
      var d := AskedIsARequiredDemand(a, reg, ev, g, x, members);
    }
    if RequiredInDoubt(a, reg, ev) {
      var g, x, members, kind :| AskedBy(a, reg, ev, g, x, Required) && Enumerates(reg, x, members) && members != []
        && ValuesInDoubt(a, kind, EntryKey(x), ev);
      var d := AskedIsARequiredDemand(a, reg, ev, g, x, members);
    }
  }

  lemma ArrivalOverReadings(a: Assertion, reg: Registry, ev: Evidence)
    requires LoadedRegistry(reg)
    ensures Lost(a, reg, ev) <==> SomethingLost(a, reg, ev)
    ensures CannotSee(a, reg, ev) <==> SomethingUnseen(a, reg, ev)
    ensures Judgeable(a, ev) <==> AnythingLanded(a, ev)
    ensures SomeClipped(a, ev) <==> SomethingCutShort(a, ev)
  {
    SignalsLost(a, ev);
    SignalsLanded(a, ev);
    GroupsLost(a, reg, ev);
    GroupsUnseen(a, reg, ev);
    hide Silent, Usable, Blind, Clipped, NamesKnown, SignalLanded, ArrivalOf, GroupSeen, GroupGone, GroupReached, ScopedGroups, LoadedRegistry,
      NameReading;
  }

  lemma SignalsLost(a: Assertion, ev: Evidence)
    ensures (exists kind :: Silent(a, kind, ev)) <==> exists kind :: NamesKnown(a, kind, ev) && !SignalLanded(a, kind, ev)
    ensures (exists kind :: Blind(a, kind, ev)) <==> exists kind :: kind in a.signals && !NamesKnown(a, kind, ev)
  {
    if kind :| Silent(a, kind, ev) { SignalReadings(a, kind, ev); assert NamesKnown(a, kind, ev) && !SignalLanded(a, kind, ev); }
    if kind :| Blind(a, kind, ev) { SignalReadings(a, kind, ev); assert kind in a.signals && !NamesKnown(a, kind, ev); }
    hide SignalLanded;
    if kind :| NamesKnown(a, kind, ev) && !SignalLanded(a, kind, ev) { SignalReadings(a, kind, ev); }
    if kind :| kind in a.signals && !NamesKnown(a, kind, ev) { SignalReadings(a, kind, ev); }
  }

  lemma SignalsLanded(a: Assertion, ev: Evidence)
    ensures Judgeable(a, ev) <==> AnythingLanded(a, ev)
    ensures SomeClipped(a, ev) <==> SomethingCutShort(a, ev)
  {
    if kind :| Usable(a, kind, ev) { SignalReadings(a, kind, ev); assert NamesKnown(a, kind, ev) && SignalLanded(a, kind, ev); }
    if kind :| Clipped(a, kind, ev) { SignalReadings(a, kind, ev); assert NamesKnown(a, kind, ev) && SignalLanded(a, kind, ev); }
    hide SignalLanded, Usable;
    if kind :| NamesKnown(a, kind, ev) && SignalLanded(a, kind, ev) { SignalReadings(a, kind, ev); assert Usable(a, kind, ev); }
    if kind :| NamesKnown(a, kind, ev) && SignalLanded(a, kind, ev) && ev.names[NameReading(a, kind)].truncated {
      SignalReadings(a, kind, ev);
      assert Clipped(a, kind, ev);
    }
  }

  lemma GroupsLost(a: Assertion, reg: Registry, ev: Evidence)
    requires LoadedRegistry(reg)
    ensures (exists s :: s in ScopedGroups(reg, a.scope) && ArrivalOf(a, s.group, ev) == Absent)
       <==> exists g :: GroupReached(reg, a.scope, g) && GroupGone(a, g, ev)
  {
    if s :| s in ScopedGroups(reg, a.scope) && ArrivalOf(a, s.group, ev) == Absent {
      GroupReachedIs(reg, a.scope, s.group);
      GroupArrival(a, s.group, ev);
      assert GroupReached(reg, a.scope, s.group);
    }
    hide LoadedRegistry, ScopedGroups, GroupReached;
    if g :| GroupReached(reg, a.scope, g) && GroupGone(a, g, ev) {
      GroupReachedIs(reg, a.scope, g);
      GroupArrival(a, g, ev);
    }
  }

  lemma GroupsUnseen(a: Assertion, reg: Registry, ev: Evidence)
    requires LoadedRegistry(reg)
    ensures (exists s :: s in ScopedGroups(reg, a.scope) && ArrivalOf(a, s.group, ev) == Unsure)
       <==> exists g :: GroupReached(reg, a.scope, g) && !GroupSeen(a, g, ev) && !GroupGone(a, g, ev)
  {
    hide LoadedRegistry, ScopedGroups, GroupReached, ArrivalOf, GroupSeen, GroupGone;
    if s :| s in ScopedGroups(reg, a.scope) && ArrivalOf(a, s.group, ev) == Unsure {
      GroupReachedIs(reg, a.scope, s.group);
      GroupArrival(a, s.group, ev);
      assert GroupReached(reg, a.scope, s.group);
    }
    if g :| GroupReached(reg, a.scope, g) && !GroupSeen(a, g, ev) && !GroupGone(a, g, ev) {
      GroupReachedIs(reg, a.scope, g);
      GroupArrival(a, g, ev);
    }
  }

  /** The required-level verdict over the readings and the registry's own
      entries. Lost outranks the wrong shape, the wrong shape outranks not
      knowing, and compliant is none of them. */
  lemma VerdictOverReadings(req: string, a: Assertion, reg: Registry, ev: Evidence)
    requires LoadedRegistry(reg)
    ensures Verdict(req, a, reg, ev).outcome ==
      if SomethingLost(a, reg, ev) then NotDelivered
      else if AnythingLanded(a, ev)
              && ((RequiredUnnamed(a, reg, ev) && !SomethingCutShort(a, ev)) || RequiredUndeclared(a, reg, ev)) then Misconfigured
      else if SomethingUnseen(a, reg, ev)
              || (AnythingLanded(a, ev) && (RequiredUnnamed(a, reg, ev) || RequiredInDoubt(a, reg, ev))) then Unknown
      else Compliant
  {
    VerdictMeaning(req, a, reg, ev);
    PartsOverReadings(a, reg, ev);
    ArrivalOverReadings(a, reg, ev);
    hide Verdict, Lost, CannotSee, Judgeable, SomeClipped, RequiredMissing, RequiredBreach, RequiredDoubt, LoadedRegistry,
      SomethingLost, SomethingUnseen, AnythingLanded, SomethingCutShort, RequiredUnnamed, RequiredUndeclared, RequiredInDoubt;
  }
}
