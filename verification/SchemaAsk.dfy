/** A verdict depends on what a scope asks for and on nothing else: not on the
    order it was authored in, and not on which version spells it how. */
module SchemaAsk {
  import opened Base
  import opened Verdicts
  import opened SchemaModel
  import opened SchemaScope
  import opened SchemaJudge
  import opened SchemaStability

  ghost predicate Asks(t: Scoped, d: Demand) {
    exists e :: e in t.demands && e.attribute == d.attribute && e.level == d.level && e.members == d.members
  }

  /** `t` is located as `s` is and asks for at least what `s` does. */
  ghost predicate SameAsk(s: Scoped, t: Scoped) {
    && s.group.kind == t.group.kind && s.group.metricName == t.group.metricName
    && forall d :: d in s.demands ==> Asks(t, d)
  }

  ghost predicate SameReadings(a: Assertion, b: Assertion) {
    a.signals == b.signals && a.window == b.window
  }

  /** Every group the first resolution reaches has a counterpart in the second.
      Order, group ids and where things are defined are free to differ. */
  ghost predicate AsksAtLeast(reg: Registry, a: Assertion, other: Registry, b: Assertion) {
    forall s :: s in ScopedGroups(reg, a.scope) ==> exists t :: t in ScopedGroups(other, b.scope) && SameAsk(s, t)
  }

  lemma SameReadingsReadTheSame(a: Assertion, b: Assertion, kind: Signal, ev: Evidence)
    requires SameReadings(a, b)
    ensures Silent(a, kind, ev) == Silent(b, kind, ev) && Blind(a, kind, ev) == Blind(b, kind, ev)
    ensures Usable(a, kind, ev) == Usable(b, kind, ev) && Clipped(a, kind, ev) == Clipped(b, kind, ev)
    ensures forall k :: Names(a, kind, ev, k) == Names(b, kind, ev, k)
    ensures forall k :: ReadFor(a, kind, k, ev) == ReadFor(b, kind, k, ev) && Unproven(a, kind, k, ev) == Unproven(b, kind, k, ev)
  {
  }

  lemma SameKeySameArrival(a: Assertion, b: Assertion, g: Group, h: Group, ev: Evidence)
    requires SameReadings(a, b) && g.kind == h.kind && g.metricName == h.metricName
    ensures ArrivalOf(a, g, ev) == ArrivalOf(b, h, ev)
  {
  }

  lemma SameValuesSameBreach(a: Assertion, b: Assertion, d: Demand, e: Demand, kind: Signal, ev: Evidence)
    requires SameReadings(a, b) && d.attribute == e.attribute && d.members == e.members
    ensures UndeclaredOn(a, d, kind, ev) == UndeclaredOn(b, e, kind, ev)
  {
  }

  lemma RequiredDemandCarries(a: Assertion, reg: Registry, b: Assertion, other: Registry, ev: Evidence, d: Demand) returns (e: Demand)
    requires SameReadings(a, b) && AsksAtLeast(reg, a, other, b) && OneDefinition(other)
    requires RequiredDemand(a, reg, ev, d)
    ensures RequiredDemand(b, other, ev, e) && e.attribute == d.attribute && e.members == d.members
  {
    hide ScopedGroups, DemandsIn, ArrivalOf, OneDefinition, ReadGroups, SameReadings;
    var mine, theirs := ScopedGroups(reg, a.scope), ScopedGroups(other, b.scope);
    var now := ReadGroups(b, theirs, ev).inPlay;
    var s := DemandingGroup(ReadGroups(a, mine, ev).inPlay, d);
    InPlayMeaning(a, mine, ev, s);
    var t :| t in theirs && SameAsk(s, t);
    SameKeySameArrival(a, b, s.group, t.group, ev);
    InPlayMeaning(b, theirs, ev, t);
    assert Asks(t, d);
    var x :| x in t.demands && x.attribute == d.attribute && x.level == d.level && x.members == d.members;
    assert Declares(now, d.attribute, Required);
    StrictestLevelWins(now, d.attribute, Required);
    e :| e in DemandsIn(now) && e.attribute == d.attribute && e.level == Required;
    var u := DemandingGroup(now, e);
    InPlayMeaning(b, theirs, ev, u);
    SameMembersByDefinition(other, b.scope, t, x, u, e);
  }

  lemma ReachCarries(a: Assertion, reg: Registry, b: Assertion, other: Registry, ev: Evidence)
    requires SameReadings(a, b) && AsksAtLeast(reg, a, other, b)
    ensures Lost(a, reg, ev) ==> Lost(b, other, ev)
    ensures CannotSee(a, reg, ev) ==> CannotSee(b, other, ev)
    ensures Judgeable(a, ev) ==> Judgeable(b, ev)
    ensures SomeClipped(a, ev) ==> SomeClipped(b, ev)
  {
    forall kind
      ensures Silent(a, kind, ev) == Silent(b, kind, ev) && Blind(a, kind, ev) == Blind(b, kind, ev)
      ensures Usable(a, kind, ev) == Usable(b, kind, ev) && Clipped(a, kind, ev) == Clipped(b, kind, ev)
    {
      SameReadingsReadTheSame(a, b, kind, ev);
    }
    hide ScopedGroups, Silent, Blind, ArrivalOf, Usable, Clipped;
    forall s | s in ScopedGroups(reg, a.scope)
      ensures exists t :: t in ScopedGroups(other, b.scope) && ArrivalOf(b, t.group, ev) == ArrivalOf(a, s.group, ev)
    {
      var t :| t in ScopedGroups(other, b.scope) && SameAsk(s, t);
      SameKeySameArrival(a, b, s.group, t.group, ev);
    }
  }

  lemma RequiredPartsCarry(a: Assertion, reg: Registry, b: Assertion, other: Registry, ev: Evidence)
    requires SameReadings(a, b) && AsksAtLeast(reg, a, other, b) && OneDefinition(other)
    ensures RequiredMissing(a, reg, ev) ==> RequiredMissing(b, other, ev)
    ensures RequiredBreach(a, reg, ev) ==> RequiredBreach(b, other, ev)
    ensures RequiredDoubt(a, reg, ev) ==> RequiredDoubt(b, other, ev)
  {
    hide RequiredDemand, OneDefinition, UndeclaredOn, Unproven, ReadFor, Names, AsksAtLeast, SameReadings;
    if d :| RequiredDemand(a, reg, ev, d) && !InUseSomewhere(a, ev, d.attribute) {
      var e := RequiredDemandCarries(a, reg, b, other, ev, d);
      forall kind ensures !Names(b, kind, ev, e.attribute) {
        SameReadingsReadTheSame(a, b, kind, ev);
      }
      assert !InUseSomewhere(b, ev, e.attribute);
    }
    if RequiredBreach(a, reg, ev) {
      var d, kind :| RequiredDemand(a, reg, ev, d) && CarriesUndeclared(a, d, kind, ev);
      var e := RequiredDemandCarries(a, reg, b, other, ev, d);
      SameValuesSameBreach(a, b, d, e, kind, ev);
      assert CarriesUndeclared(b, e, kind, ev);
    }
    if RequiredDoubt(a, reg, ev) {
      var d, kind :| RequiredDemand(a, reg, ev, d) && d.members != [] && ReadFor(a, kind, d.attribute, ev) && Unproven(a, kind, d.attribute, ev);
      var e := RequiredDemandCarries(a, reg, b, other, ev, d);
      SameReadingsReadTheSame(a, b, kind, ev);
      assert ReadFor(b, kind, e.attribute, ev) && Unproven(b, kind, e.attribute, ev);
    }
  }

  /** Asking the same of the same readings gives the same verdict. */
  lemma SameAskSameVerdict(req: string, a: Assertion, reg: Registry, b: Assertion, other: Registry, ev: Evidence)
    requires SameReadings(a, b) && OneDefinition(reg) && OneDefinition(other)
    requires AsksAtLeast(reg, a, other, b) && AsksAtLeast(other, b, reg, a)
    ensures Verdict(req, a, reg, ev).outcome == Verdict(req, b, other, ev).outcome
  {
    VerdictMeaning(req, a, reg, ev);
    VerdictMeaning(req, b, other, ev);
    ReachCarries(a, reg, b, other, ev);
    ReachCarries(b, other, a, reg, ev);
    RequiredPartsCarry(a, reg, b, other, ev);
    RequiredPartsCarry(b, other, a, reg, ev);
    hide Verdict, AsksAtLeast, Lost, CannotSee, RequiredMissing, RequiredBreach, RequiredDoubt, Judgeable, SomeClipped;
  }

  /** Two authorings of one scope. */
  ghost predicate SameScope(a: Assertion, b: Assertion) {
    && SameReadings(a, b)
    && (forall id :: id in a.scope.groups <==> id in b.scope.groups)
    && (forall ns :: ns in a.scope.namespaces <==> ns in b.scope.namespaces)
  }

  lemma SameScopeAsksTheSame(a: Assertion, b: Assertion, reg: Registry)
    requires SameScope(a, b) && ValidIds(reg)
    ensures AsksAtLeast(reg, a, reg, b)
  {
    hide ScopedGroups, ValidIds;
    forall s | s in ScopedGroups(reg, a.scope) ensures exists t :: t in ScopedGroups(reg, b.scope) && SameAsk(s, t) {
      ScopeOrderDoesNotMatter(reg, a.scope, b.scope, s);
      var t :| t in ScopedGroups(reg, b.scope) && t.group == s.group && forall d :: d in s.demands <==> d in t.demands;
      forall d | d in s.demands ensures Asks(t, d) { }
    }
  }

  /** Authoring order never moves a verdict. */
  lemma VerdictIgnoresScopeOrder(req: string, a: Assertion, b: Assertion, reg: Registry, ev: Evidence)
    requires SameScope(a, b) && ValidIds(reg) && BareReferences(reg)
    ensures Verdict(req, a, reg, ev).outcome == Verdict(req, b, reg, ev).outcome
  {
    ValidRegistryHasOneDefinition(reg);
    SameScopeAsksTheSame(a, b, reg);
    SameScopeAsksTheSame(b, a, reg);
    hide Verdict, AsksAtLeast, OneDefinition, ValidIds;
    SameAskSameVerdict(req, a, reg, b, reg, ev);
  }

  // ------------------------------------------------------ the demand partition

  /** The level's finding is drawn from the attribute. */
  ghost predicate JudgedInFinding(a: Assertion, reg: Registry, ev: Evidence, attribute: string, level: Level) {
    exists d :: d in AtLevel(DemandsInPlay(a, reg, ev), level) && d.attribute == attribute
  }

  ghost predicate DeclaredInPlay(a: Assertion, reg: Registry, ev: Evidence, attribute: string, level: Level) {
    exists s, d ::
      && s in ScopedGroups(reg, a.scope) && ArrivalOf(a, s.group, ev) == InPlay
      && d in s.demands && d.attribute == attribute && d.level == level
  }

  lemma DeclaredInPlayMeaning(a: Assertion, reg: Registry, ev: Evidence, attribute: string, level: Level)
    ensures Declares(ReadGroups(a, ScopedGroups(reg, a.scope), ev).inPlay, attribute, level)
       <==> DeclaredInPlay(a, reg, ev, attribute, level)
  {
  }

  /** An attribute some group in play declares is judged in exactly one level's
      finding: the strictest level a group in play declares it at. One no group
      in play declares is judged in none. */
  lemma AttributeJudgedOnce(a: Assertion, reg: Registry, ev: Evidence, attribute: string, level: Level)
    ensures JudgedInFinding(a, reg, ev, attribute, level)
       <==> && DeclaredInPlay(a, reg, ev, attribute, level)
            && forall l :: DeclaredInPlay(a, reg, ev, attribute, l) ==> Rank(level) <= Rank(l)
  {
    var inPlay := ReadGroups(a, ScopedGroups(reg, a.scope), ev).inPlay;
    hide ScopedGroups, ReadGroups, DemandsIn, DeclaredInPlay, Declares;
    assert JudgedInFinding(a, reg, ev, attribute, level) <==> JudgedAt(inPlay, attribute, level);
    StrictestLevelWins(inPlay, attribute, level);
    forall l ensures Declares(inPlay, attribute, l) <==> DeclaredInPlay(a, reg, ev, attribute, l) {
      DeclaredInPlayMeaning(a, reg, ev, attribute, l);
    }
  }

  /** And the level does not move when the scope is authored in another order. */
  lemma LevelIgnoresScopeOrder(a: Assertion, b: Assertion, reg: Registry, ev: Evidence, attribute: string, level: Level)
    requires SameScope(a, b) && ValidIds(reg)
    ensures JudgedInFinding(a, reg, ev, attribute, level) <==> JudgedInFinding(b, reg, ev, attribute, level)
  {
    AttributeJudgedOnce(a, reg, ev, attribute, level);
    AttributeJudgedOnce(b, reg, ev, attribute, level);
    SameScopeAsksTheSame(a, b, reg);
    SameScopeAsksTheSame(b, a, reg);
    hide JudgedInFinding, AsksAtLeast, ValidIds, DeclaredInPlay;
    forall l ensures DeclaredInPlay(a, reg, ev, attribute, l) <==> DeclaredInPlay(b, reg, ev, attribute, l) {
      DeclarationCarries(a, b, reg, ev, attribute, l);
      DeclarationCarries(b, a, reg, ev, attribute, l);
    }
  }

  lemma DeclarationCarries(a: Assertion, b: Assertion, reg: Registry, ev: Evidence, attribute: string, level: Level)
    requires SameReadings(a, b) && AsksAtLeast(reg, a, reg, b)
    ensures DeclaredInPlay(a, reg, ev, attribute, level) ==> DeclaredInPlay(b, reg, ev, attribute, level)
  {
  }

  /** Each scoped group lands in exactly one place, and which one is what its
      reading says. */
  lemma GroupPartition(a: Assertion, groups: seq<Scoped>, ev: Evidence, s: Scoped)
    requires s in groups
    ensures var v, key := ReadGroups(a, groups, ev), GroupKeyValue(s.group);
      var located := key.Some? && a.Covers(key.value.0);
      var read := located && a.ReadingOf(key.value.0) in ev.groups && ev.groups[a.ReadingOf(key.value.0)].known;
      var named := read && key.value.1 in ev.groups[a.ReadingOf(key.value.0)].names;
      && (s in v.inPlay <==> !located || named)
      && (read && !named && !ev.groups[a.ReadingOf(key.value.0)].truncated ==> v.absent)
      && (located && !read ==> v.unsure)
      && (read && !named && ev.groups[a.ReadingOf(key.value.0)].truncated ==> v.unsure)
      && ((v.absent || v.unsure) <==> exists t :: t in groups && t !in v.inPlay)
  {
  }
}
