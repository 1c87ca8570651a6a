/** Concrete readings on which a verdict does not survive the missing part:
    the inputs behind the conditions SchemaStability proves exact. */
module SchemaWitness {
  import opened Base
  import opened Verdicts
  import opened SchemaModel
  import opened SchemaScope
  import opened SchemaJudge
  import opened SchemaStability

  // ---- a registry that asks one thing ------------------------------------

  /** One group of one enum attribute it defines itself, at the required level,
      named outright by the scope. */
  ghost predicate AsksOne(a: Assertion, reg: Registry, g: Group, x: Attribute) {
    && reg.groups == [g] && g.attributes == [x] && g.kind == AttributeGroup
    && x.id != "" && x.ref == "" && x.members != [] && x.level == Some(Required)
    && a.scope.groups == [g.id] && a.scope.namespaces == []
  }

  lemma OneIsValid(a: Assertion, reg: Registry, g: Group, x: Attribute)
    requires AsksOne(a, reg, g, x)
    ensures ValidIds(reg)
    ensures reg.FindGroup(g.id) == Some(g)
    ensures forall v :: Reaches(reg, a.scope, v) ==> v.group == g
    ensures Reaches(reg, a.scope, Visit(g, Some(x)))
    ensures DemandOf(reg, g, x) == Demand(x.id, Required, g.id, x.members, g.id)
    ensures forall ev :: ArrivalOf(a, g, ev) == InPlay
  {
    assert g in reg.groups && x in g.attributes;
    var found := reg.FindGroup(g.id);
    assert found.Some? && found.value in reg.groups;
  }

  lemma OnlyOneIsDemanded(a: Assertion, reg: Registry, g: Group, x: Attribute, t: Scoped, d: Demand)
    requires AsksOne(a, reg, g, x) && t in ScopedGroups(reg, a.scope) && d in t.demands
    ensures d == DemandOf(reg, g, x)
  {
    OneIsValid(a, reg, g, x);
    hide ScopedGroups, Reaches, ValidIds, DemandOf;
    ReachedDemands(reg, a.scope, t, d);
  }

  lemma OneIsReached(a: Assertion, reg: Registry, g: Group, x: Attribute) returns (s: Scoped)
    requires AsksOne(a, reg, g, x)
    ensures s in ScopedGroups(reg, a.scope) && s.group == g && DemandOf(reg, g, x) in s.demands
    ensures forall t :: t in ScopedGroups(reg, a.scope) ==> t.group == g
    ensures forall t, d :: t in ScopedGroups(reg, a.scope) && d in t.demands ==> d == DemandOf(reg, g, x)
  {
    OneIsValid(a, reg, g, x);
    hide ScopedGroups, Reaches, ValidIds, DemandOf;
    forall t | t in ScopedGroups(reg, a.scope) ensures t.group == g { ReachedGroups(reg, a.scope, t.group); }
    forall t, d | t in ScopedGroups(reg, a.scope) && d in t.demands ensures d == DemandOf(reg, g, x) {
      OnlyOneIsDemanded(a, reg, g, x, t, d);
    }
    ReachedGroups(reg, a.scope, g);
    s :| s in ScopedGroups(reg, a.scope) && s.group == g;
    ReachedDemands(reg, a.scope, s, DemandOf(reg, g, x));
  }

  /** Whatever the readings, one thing is demanded at required. */
  lemma OneIsDemanded(a: Assertion, reg: Registry, g: Group, x: Attribute, ev: Evidence, d: Demand)
    requires AsksOne(a, reg, g, x)
    ensures RequiredDemand(a, reg, ev, d) <==> d == DemandOf(reg, g, x)
    ensures forall s :: s in ScopedGroups(reg, a.scope) ==> ArrivalOf(a, s.group, ev) == InPlay
  {
    OneIsValid(a, reg, g, x);
    var s := OneIsReached(a, reg, g, x);
    hide ScopedGroups, DemandsIn, ReadGroups, ArrivalOf, AsksOne, DemandOf;
    var scoped := ScopedGroups(reg, a.scope);
    var inPlay := ReadGroups(a, scoped, ev).inPlay;
    InPlayMeaning(a, scoped, ev, s);
    var it := DemandOf(reg, g, x);
    assert it.level == Required;
    assert Declares(inPlay, it.attribute, Required);
    StrictestLevelWins(inPlay, it.attribute, Required);
    var e :| e in DemandsIn(inPlay) && e.attribute == it.attribute && e.level == Required;
    var t := DemandingGroup(inPlay, e);
    InPlayMeaning(a, scoped, ev, t);
    if RequiredDemand(a, reg, ev, d) {
      var u := DemandingGroup(inPlay, d);
      InPlayMeaning(a, scoped, ev, u);
    }
  }

  lemma OneHasOneDefinition(a: Assertion, reg: Registry, g: Group, x: Attribute)
    requires AsksOne(a, reg, g, x)
    ensures OneDefinition(reg)
  {
    OneIsValid(a, reg, g, x);
    ValidRegistryHasOneDefinition(reg);
  }

  /** The parts of the verdict, with the registry worked out of them. */
  lemma PartsOfOne(a: Assertion, reg: Registry, g: Group, x: Attribute, ev: Evidence)
    requires AsksOne(a, reg, g, x)
    ensures Lost(a, reg, ev) <==> exists kind :: Silent(a, kind, ev)
    ensures CannotSee(a, reg, ev) <==> exists kind :: Blind(a, kind, ev)
    ensures RequiredMissing(a, reg, ev) <==> !InUseSomewhere(a, ev, x.id)
    ensures RequiredBreach(a, reg, ev) <==> exists kind :: CarriesUndeclared(a, DemandOf(reg, g, x), kind, ev)
    ensures RequiredDoubt(a, reg, ev) <==> exists kind :: ReadFor(a, kind, x.id, ev) && Unproven(a, kind, x.id, ev)
  {
    OneIsValid(a, reg, g, x);
    hide AsksOne, ValidIds, Reaches, DemandOf, Lost, CannotSee, RequiredMissing, RequiredBreach, RequiredDoubt;
    var it := DemandOf(reg, g, x);
    forall d ensures RequiredDemand(a, reg, ev, d) <==> d == it { OneIsDemanded(a, reg, g, x, ev, d); }
    OneIsDemanded(a, reg, g, x, ev, it);
    EveryGroupInPlay(a, reg, ev);
    DemandedAlone(a, reg, ev, it);
  }

  lemma EveryGroupInPlay(a: Assertion, reg: Registry, ev: Evidence)
    requires forall s :: s in ScopedGroups(reg, a.scope) ==> ArrivalOf(a, s.group, ev) == InPlay
    ensures Lost(a, reg, ev) <==> exists kind :: Silent(a, kind, ev)
    ensures CannotSee(a, reg, ev) <==> exists kind :: Blind(a, kind, ev)
  {
    hide ScopedGroups, Silent, Blind, ArrivalOf;
  }

  /** Where one demand alone is required, the verdict's parts are about it. */
  lemma DemandedAlone(a: Assertion, reg: Registry, ev: Evidence, it: Demand)
    requires it.members != [] && forall d :: RequiredDemand(a, reg, ev, d) <==> d == it
    ensures RequiredMissing(a, reg, ev) <==> !InUseSomewhere(a, ev, it.attribute)
    ensures RequiredBreach(a, reg, ev) <==> exists kind :: CarriesUndeclared(a, it, kind, ev)
    ensures RequiredDoubt(a, reg, ev) <==> exists kind :: ReadFor(a, kind, it.attribute, ev) && Unproven(a, kind, it.attribute, ev)
  {
    hide RequiredDemand, InUseSomewhere, CarriesUndeclared, ReadFor, Unproven;
    assert RequiredDemand(a, reg, ev, it);
  }

  // ---- a pass that does not survive --------------------------------------

  const X := Attribute("x", "", [Member("ok", "ok")], Some(Required))
  const GROUP := Group("g", AttributeGroup, "", [X])
  const REGISTRY := Registry("v1", [GROUP])
  const ON_LOGS := SchemaReading(Logs, 60)
  const ON_METRICS := SchemaReading(Metrics, 60)

  /** x on logs, whole and clean; metrics clipped, with an undeclared value of x
      in hand that nothing yet says is in use. */
  function ClippedMetrics(names: seq<string>): Evidence {
    Evidence(
      map["v1" := REGISTRY],
      map[ON_LOGS := NameSet(true, ["x"], false), ON_METRICS := NameSet(true, names, true)],
      map[],
      map[ValueReading(Logs, 60, "x") := DistinctValues(true, ["ok"], false),
          ValueReading(Metrics, 60, "x") := DistinctValues(true, ["bad"], false)],
      map[], "", map[])
  }

  /** Compliant, and misconfigured once the clipped reading names the rest. */
  lemma APassThatDoesNotSurvive()
    ensures var a := Assertion("v1", false, Scope(["g"], []), [Logs, Metrics], 60);
            var ev, more := ClippedMetrics(["y"]), ClippedMetrics(["y", "x"]);
            && OneDefinition(REGISTRY) && Completes(ev, more)
            && Verdict("r", a, REGISTRY, ev).outcome == Compliant
            && Verdict("r", a, REGISTRY, more).outcome == Misconfigured
  {
    var a := Assertion("v1", false, Scope(["g"], []), [Logs, Metrics], 60);
    var ev, more := ClippedMetrics(["y"]), ClippedMetrics(["y", "x"]);
    assert AsksOne(a, REGISTRY, GROUP, X);
    OneHasOneDefinition(a, REGISTRY, GROUP, X);
    ClippedParts(a, ev, more);
    PartsOfOne(a, REGISTRY, GROUP, X, ev);
    PartsOfOne(a, REGISTRY, GROUP, X, more);
    VerdictMeaning("r", a, REGISTRY, ev);
    VerdictMeaning("r", a, REGISTRY, more);
    hide Verdict, Lost, CannotSee, RequiredMissing, RequiredBreach, RequiredDoubt, Silent, Blind, InUseSomewhere,
      CarriesUndeclared, ReadFor, Unproven, ClippedMetrics, AsksOne, OneDefinition, Completes;
  }

  lemma ClippedParts(a: Assertion, ev: Evidence, more: Evidence)
    requires a.signals == [Logs, Metrics] && a.window == 60
    requires ev == ClippedMetrics(["y"]) && more == ClippedMetrics(["y", "x"])
    ensures Completes(ev, more)
    ensures forall kind :: !Silent(a, kind, ev) && !Silent(a, kind, more) && !Blind(a, kind, ev)
    ensures Judgeable(a, ev) && Judgeable(a, more) && InUseSomewhere(a, ev, "x")
    ensures forall kind :: !CarriesUndeclared(a, DemandOf(REGISTRY, GROUP, X), kind, ev)
    ensures forall kind :: ReadFor(a, kind, "x", ev) ==> !Unproven(a, kind, "x", ev)
    ensures CarriesUndeclared(a, DemandOf(REGISTRY, GROUP, X), Metrics, more)
  {
    ClippedDemand(a, ev, more);
    assert Names(a, Logs, ev, "x") && Usable(a, Logs, more);
    hide DemandOf, CarriesUndeclared;
  }

  lemma ClippedDemand(a: Assertion, ev: Evidence, more: Evidence)
    requires a.signals == [Logs, Metrics] && a.window == 60
    requires ev == ClippedMetrics(["y"]) && more == ClippedMetrics(["y", "x"])
    ensures forall kind :: !CarriesUndeclared(a, DemandOf(REGISTRY, GROUP, X), kind, ev)
    ensures CarriesUndeclared(a, DemandOf(REGISTRY, GROUP, X), Metrics, more)
  {
    assert "x" in ["y", "x"];
    assert "bad" in UndeclaredOn(a, DemandOf(REGISTRY, GROUP, X), Metrics, more);
  }

  // ---- a loss that does not survive --------------------------------------

  function QuietLogs(names: seq<string>): Evidence {
    Evidence(
      map["v1" := REGISTRY],
      map[ON_LOGS := NameSet(true, names, true)],
      map[],
      map[ValueReading(Logs, 60, "x") := DistinctValues(true, ["ok"], false)],
      map[], "", map[])
  }

  /** An empty clipped reading with no presence reading beside it counts as a
      loss; completed, the row is compliant. */
  lemma ALossThatDoesNotSurvive()
    ensures var a := Assertion("v1", false, Scope(["g"], []), [Logs], 60);
            var ev, more := QuietLogs([]), QuietLogs(["x"]);
            && OneDefinition(REGISTRY) && Completes(ev, more)
            && Verdict("r", a, REGISTRY, ev).outcome == NotDelivered
            && Verdict("r", a, REGISTRY, more).outcome == Compliant
  {
    var a := Assertion("v1", false, Scope(["g"], []), [Logs], 60);
    var ev, more := QuietLogs([]), QuietLogs(["x"]);
    assert AsksOne(a, REGISTRY, GROUP, X);
    OneHasOneDefinition(a, REGISTRY, GROUP, X);
    QuietParts(a, ev, more);
    PartsOfOne(a, REGISTRY, GROUP, X, ev);
    PartsOfOne(a, REGISTRY, GROUP, X, more);
    VerdictMeaning("r", a, REGISTRY, ev);
    VerdictMeaning("r", a, REGISTRY, more);
    hide Verdict, Lost, CannotSee, RequiredMissing, RequiredBreach, RequiredDoubt, Silent, Blind, InUseSomewhere,
      CarriesUndeclared, ReadFor, Unproven, QuietLogs, AsksOne, OneDefinition, Completes;
  }

  lemma QuietParts(a: Assertion, ev: Evidence, more: Evidence)
    requires a.signals == [Logs] && a.window == 60
    requires ev == QuietLogs([]) && more == QuietLogs(["x"])
    ensures Completes(ev, more)
    ensures Silent(a, Logs, ev)
    ensures forall kind :: !Silent(a, kind, more) && !Blind(a, kind, more)
    ensures Judgeable(a, more) && InUseSomewhere(a, more, "x")
    ensures forall kind :: !CarriesUndeclared(a, DemandOf(REGISTRY, GROUP, X), kind, more)
    ensures forall kind :: ReadFor(a, kind, "x", more) ==> !Unproven(a, kind, "x", more)
  {
    assert Names(a, Logs, more, "x") && Usable(a, Logs, more);
  }
}
