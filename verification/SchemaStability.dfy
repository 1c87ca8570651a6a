/** What the required-level verdict means, and what more evidence can do to it:
    a red survives completion, and exactly when a pass does. */
module SchemaStability {
  import opened Base
  import opened Verdicts
  import opened SchemaModel
  import opened SchemaScope
  import opened SchemaJudge

  // ------------------------------------------------------- the verdict, stated

  /** Part of what the scope covers certainly did not arrive. */
  ghost predicate Lost(a: Assertion, reg: Registry, ev: Evidence) {
    || (exists kind :: Silent(a, kind, ev))
    || (exists s :: s in ScopedGroups(reg, a.scope) && ArrivalOf(a, s.group, ev) == Absent)
  }

  ghost predicate CannotSee(a: Assertion, reg: Registry, ev: Evidence) {
    || (exists kind :: Blind(a, kind, ev))
    || (exists s :: s in ScopedGroups(reg, a.scope) && ArrivalOf(a, s.group, ev) == Unsure)
  }

  ghost predicate Judgeable(a: Assertion, ev: Evidence) {
    exists kind :: Usable(a, kind, ev)
  }

  ghost predicate InUseSomewhere(a: Assertion, ev: Evidence, attribute: string) {
    exists kind :: Names(a, kind, ev, attribute)
  }

  /** The demands a required-level verdict is drawn from. */
  ghost predicate RequiredDemand(a: Assertion, reg: Registry, ev: Evidence, d: Demand) {
    d in DemandsInPlay(a, reg, ev) && d.level == Required
  }

  ghost predicate RequiredMissing(a: Assertion, reg: Registry, ev: Evidence) {
    exists d :: RequiredDemand(a, reg, ev, d) && !InUseSomewhere(a, ev, d.attribute)
  }

  ghost predicate SomeClipped(a: Assertion, ev: Evidence) {
    exists kind :: Clipped(a, kind, ev)
  }

  ghost predicate CarriesUndeclared(a: Assertion, d: Demand, kind: Signal, ev: Evidence) {
    d.members != [] && UndeclaredOn(a, d, kind, ev) != {}
  }

  ghost predicate RequiredBreach(a: Assertion, reg: Registry, ev: Evidence) {
    exists d, kind :: RequiredDemand(a, reg, ev, d) && CarriesUndeclared(a, d, kind, ev)
  }

  ghost predicate RequiredDoubt(a: Assertion, reg: Registry, ev: Evidence) {
    exists d, kind :: RequiredDemand(a, reg, ev, d) && d.members != [] && ReadFor(a, kind, d.attribute, ev) && Unproven(a, kind, d.attribute, ev)
  }

  /** What arrived is provably the wrong shape. */
  ghost predicate WrongShape(a: Assertion, reg: Registry, ev: Evidence) {
    Judgeable(a, ev) && ((RequiredMissing(a, reg, ev) && !SomeClipped(a, ev)) || RequiredBreach(a, reg, ev))
  }

  ghost predicate Undecided(a: Assertion, reg: Registry, ev: Evidence) {
    CannotSee(a, reg, ev) || (Judgeable(a, ev) && (RequiredMissing(a, reg, ev) || RequiredDoubt(a, reg, ev)))
  }

  lemma SignalsAreAll(kind: Signal)
    ensures kind in SIGNALS
  {
  }

  lemma PresentMeaning(a: Assertion, ev: Evidence, attribute: string)
    ensures attribute in ReadScope(a, ev).present <==> InUseSomewhere(a, ev, attribute)
    ensures ReadScope(a, ev).judgeable <==> Judgeable(a, ev)
    ensures ReadScope(a, ev).truncated <==> SomeClipped(a, ev)
  {
    forall kind ensures kind in SIGNALS { SignalsAreAll(kind); }
    if attribute in ReadScope(a, ev).present {
      var kind :| kind in SIGNALS && Usable(a, kind, ev) && attribute in ev.names[a.ReadingOf(kind)].names;
      assert Names(a, kind, ev, attribute);
    }
    if InUseSomewhere(a, ev, attribute) {
      var kind :| Names(a, kind, ev, attribute);
      assert kind in SIGNALS;
    }
  }

  lemma MissingMeaning(a: Assertion, reg: Registry, ev: Evidence)
    ensures Missing(AtLevel(DemandsInPlay(a, reg, ev), Required), ReadScope(a, ev).present) != [] <==> RequiredMissing(a, reg, ev)
  {
    hide ReadScope, DemandsInPlay;
    var at, present := AtLevel(DemandsInPlay(a, reg, ev), Required), ReadScope(a, ev).present;
    var missing := Missing(at, present);
    if missing != [] {
      assert missing[0] in missing;
      var d :| d in at && d.attribute == missing[0];
      PresentMeaning(a, ev, d.attribute);
      assert RequiredDemand(a, reg, ev, d);
    }
    if d :| RequiredDemand(a, reg, ev, d) && !InUseSomewhere(a, ev, d.attribute) {
      PresentMeaning(a, ev, d.attribute);
      assert d.attribute in missing;
    }
  }

  lemma EnumOf(a: Assertion, reg: Registry, ev: Evidence, d: Demand)
    requires d in DemandsInPlay(a, reg, ev)
    ensures var enums := ReadEnums(a, DemandsInPlay(a, reg, ev), ev);
      && (d.attribute in enums <==> d.members != [] && exists kind :: ReadFor(a, kind, d.attribute, ev))
      && (d.attribute in enums ==> enums[d.attribute] == JudgeEnum(a, d, SIGNALS, ev))
  {
    DemandsInIsTheStrictestMap(ReadGroups(a, ScopedGroups(reg, a.scope), ev).inPlay);
    ReadEnumsMeaning(a, DemandsInPlay(a, reg, ev), ev, d);
    forall kind ensures kind in SIGNALS { SignalsAreAll(kind); }
  }

  lemma JudgeEnumMeaning(a: Assertion, d: Demand, ev: Evidence)
    ensures JudgeEnum(a, d, SIGNALS, ev).undeclared != {} <==> exists kind :: UndeclaredOn(a, d, kind, ev) != {}
    ensures Doubtful(a, d.attribute, SIGNALS, ev) <==> exists kind :: ReadFor(a, kind, d.attribute, ev) && Unproven(a, kind, d.attribute, ev)
  {
    hide UndeclaredOn, ReadFor, Unproven;
    forall kind ensures kind in SIGNALS { SignalsAreAll(kind); }
    if kind :| UndeclaredOn(a, d, kind, ev) != {} {
      var v :| v in UndeclaredOn(a, d, kind, ev);
      assert v in Undeclared(a, d, SIGNALS, ev);
    }
    if JudgeEnum(a, d, SIGNALS, ev).undeclared != {} {
      var v :| v in Undeclared(a, d, SIGNALS, ev);
      var kind :| kind in SIGNALS && v in UndeclaredOn(a, d, kind, ev);
      assert UndeclaredOn(a, d, kind, ev) != {};
    }
  }

  lemma BreachMeaning(a: Assertion, reg: Registry, ev: Evidence)
    ensures var enums := ReadEnums(a, DemandsInPlay(a, reg, ev), ev);
      Breached(AtLevel(DemandsInPlay(a, reg, ev), Required), enums) <==> RequiredBreach(a, reg, ev)
  {
    var ds := DemandsInPlay(a, reg, ev);
    var at, enums := AtLevel(ds, Required), ReadEnums(a, ds, ev);
    hide DemandsInPlay, ReadEnums;
    if Breached(at, enums) {
      var d :| d in at && d.attribute in enums && enums[d.attribute].undeclared != {};
      EnumOf(a, reg, ev, d);
      JudgeEnumMeaning(a, d, ev);
      var kind :| UndeclaredOn(a, d, kind, ev) != {};
      assert RequiredDemand(a, reg, ev, d) && CarriesUndeclared(a, d, kind, ev);
    }
    if RequiredBreach(a, reg, ev) {
      var d, kind :| RequiredDemand(a, reg, ev, d) && CarriesUndeclared(a, d, kind, ev);
      EnumOf(a, reg, ev, d);
      JudgeEnumMeaning(a, d, ev);
      assert ReadFor(a, kind, d.attribute, ev);
      assert d in at;
    }
  }

  /** A breach outranks a doubt, so doubts are read only where there is none. */
  lemma DoubtMeaning(a: Assertion, reg: Registry, ev: Evidence)
    requires !RequiredBreach(a, reg, ev)
    ensures var enums := ReadEnums(a, DemandsInPlay(a, reg, ev), ev);
      SomeUnsure(AtLevel(DemandsInPlay(a, reg, ev), Required), enums) <==> RequiredDoubt(a, reg, ev)
  {
    var ds := DemandsInPlay(a, reg, ev);
    var at, enums := AtLevel(ds, Required), ReadEnums(a, ds, ev);
    hide DemandsInPlay, ReadEnums, Unproven, ReadFor, UndeclaredOn;
    if SomeUnsure(at, enums) {
      var d :| d in at && EnumUnsure(d, enums);
      EnumOf(a, reg, ev, d);
      JudgeEnumMeaning(a, d, ev);
      var kind :| ReadFor(a, kind, d.attribute, ev) && Unproven(a, kind, d.attribute, ev);
      assert RequiredDemand(a, reg, ev, d);
    }
    if RequiredDoubt(a, reg, ev) {
      var d, kind :| RequiredDemand(a, reg, ev, d) && d.members != [] && ReadFor(a, kind, d.attribute, ev) && Unproven(a, kind, d.attribute, ev);
      EnumOf(a, reg, ev, d);
      JudgeEnumMeaning(a, d, ev);
      forall k ensures UndeclaredOn(a, d, k, ev) == {} { assert !CarriesUndeclared(a, d, k, ev); }
      assert EnumUnsure(d, enums) && d in at;
    }
  }

  lemma SharedMeaning(a: Assertion, reg: Registry, ev: Evidence)
    ensures SharedReading(a, ScopedGroups(reg, a.scope), ev).outcome
         == if Lost(a, reg, ev) then NotDelivered else if CannotSee(a, reg, ev) then Unknown else Compliant
  {
    hide ScopedGroups, Silent, Blind, ArrivalOf;
    forall kind ensures kind in SIGNALS { SignalsAreAll(kind); }
    ReadingOutcomes(a, ScopedGroups(reg, a.scope), ev);
  }

  lemma OutcomeAtRequired(at: seq<Demand>, r: ScopeReading, enums: map<string, EnumVerdict>)
    requires r.outcome in {NotDelivered, Unknown, Compliant}
    ensures var missing := Missing(at, r.present) != [];
      OutcomeAt(Required, at, r, enums)
      == if r.outcome == NotDelivered then NotDelivered
         else if r.judgeable && ((missing && !r.truncated) || Breached(at, enums)) then Misconfigured
         else if r.outcome == Unknown || (r.judgeable && (missing || SomeUnsure(at, enums))) then Unknown
         else Compliant
  {
  }

  /** The whole of the required-level verdict, with no evaluation order in it:
      loss outranks a wrong shape, and a wrong shape outranks not knowing. */
  lemma VerdictMeaning(req: string, a: Assertion, reg: Registry, ev: Evidence)
    ensures Verdict(req, a, reg, ev).outcome
         == if Lost(a, reg, ev) then NotDelivered
            else if WrongShape(a, reg, ev) then Misconfigured
            else if Undecided(a, reg, ev) then Unknown
            else Compliant
  {
    var ds, shared := DemandsInPlay(a, reg, ev), SharedReading(a, ScopedGroups(reg, a.scope), ev);
    var at, enums := AtLevel(ds, Required), ReadEnums(a, ds, ev);
    assert shared.present == ReadScope(a, ev).present && shared.judgeable == ReadScope(a, ev).judgeable
        && shared.truncated == ReadScope(a, ev).truncated;
    SharedMeaning(a, reg, ev);
    MissingMeaning(a, reg, ev);
    PresentMeaning(a, ev, "");
    BreachMeaning(a, reg, ev);
    if !RequiredBreach(a, reg, ev) { DoubtMeaning(a, reg, ev); }
    OutcomeAtRequired(at, shared, enums);
    assert Verdict(req, a, reg, ev).outcome == OutcomeAt(Required, at, shared, enums);
    hide Verdict, OutcomeAt, DemandsInPlay, SharedReading, ReadEnums, ReadScope, ScopedGroups, Lost, CannotSee, Judgeable,
      RequiredMissing, SomeClipped, RequiredBreach, RequiredDoubt, Breached, SomeUnsure, Missing, AtLevel;
  }

  // ---------------------------------------------------------- more evidence

  ghost predicate MoreNames(was: NameSet, now: NameSet) {
    if was.known && was.truncated then now.known && forall n :: n in was.names ==> n in now.names else now == was
  }

  ghost predicate MoreValues(was: DistinctValues, now: DistinctValues) {
    if was.known && was.truncated then now.known && forall v :: v in was.values ==> v in now.values else now == was
  }

  /** Truncated readings grow; whole readings, presence and everything else
      stay as they were. */
  ghost predicate Completes(ev: Evidence, more: Evidence) {
    && more.versions == ev.versions && more.activeVersion == ev.activeVersion
    && more.observed == ev.observed && more.live == ev.live
    && more.names.Keys == ev.names.Keys && (forall key :: key in ev.names ==> MoreNames(ev.names[key], more.names[key]))
    && more.groups.Keys == ev.groups.Keys && (forall key :: key in ev.groups ==> MoreNames(ev.groups[key], more.groups[key]))
    && more.values.Keys == ev.values.Keys && (forall key :: key in ev.values ==> MoreValues(ev.values[key], more.values[key]))
  }

  /** Whether the signal arrived does not hinge on records nobody sampled. */
  ghost predicate ArrivalSettled(a: Assertion, kind: Signal, ev: Evidence)
    requires a.ReadingOf(kind) in ev.names
  {
    || (a.window in ev.observed && kind in ev.observed[a.window] && ev.observed[a.window][kind].known)
    || !ev.names[a.ReadingOf(kind)].truncated
  }

  /** A loss no completion can take back. */
  ghost predicate SettledLoss(a: Assertion, reg: Registry, ev: Evidence) {
    || (exists kind :: Silent(a, kind, ev) && ArrivalSettled(a, kind, ev))
    || (exists s :: s in ScopedGroups(reg, a.scope) && ArrivalOf(a, s.group, ev) == Absent)
  }

  lemma SignalsKeep(a: Assertion, kind: Signal, ev: Evidence, more: Evidence)
    requires Completes(ev, more)
    ensures Blind(a, kind, more) <==> Blind(a, kind, ev)
    ensures Usable(a, kind, ev) ==> Usable(a, kind, more)
    ensures Silent(a, kind, more) ==> Silent(a, kind, ev)
    ensures Silent(a, kind, ev) && ArrivalSettled(a, kind, ev) ==> Silent(a, kind, more)
    ensures Usable(a, kind, ev) && !Clipped(a, kind, ev) ==> more.names[a.ReadingOf(kind)] == ev.names[a.ReadingOf(kind)]
    ensures forall k :: Names(a, kind, ev, k) ==> Names(a, kind, more, k)
  {
    if Usable(a, kind, ev) && ev.names[a.ReadingOf(kind)].names != [] {
      assert ev.names[a.ReadingOf(kind)].names[0] in more.names[a.ReadingOf(kind)].names;
    }
  }

  lemma GroupsKeep(a: Assertion, g: Group, ev: Evidence, more: Evidence)
    requires Completes(ev, more)
    ensures ArrivalOf(a, g, ev) != Unsure ==> ArrivalOf(a, g, more) == ArrivalOf(a, g, ev)
  {
  }

  lemma LossKeeps(a: Assertion, reg: Registry, ev: Evidence, more: Evidence)
    requires Completes(ev, more) && SettledLoss(a, reg, ev)
    ensures Lost(a, reg, more)
  {
    hide ScopedGroups;
    if kind :| Silent(a, kind, ev) && ArrivalSettled(a, kind, ev) {
      SignalsKeep(a, kind, ev, more);
    } else {
      var s :| s in ScopedGroups(reg, a.scope) && ArrivalOf(a, s.group, ev) == Absent;
      GroupsKeep(a, s.group, ev, more);
    }
  }

  /** The completion in which every clipped name reading names one thing more. */
  function Waking(ev: Evidence, name: string): Evidence {
    ev.(names := map key | key in ev.names ::
      if ev.names[key].known && ev.names[key].truncated then ev.names[key].(names := ev.names[key].names + [name])
      else ev.names[key])
  }

  lemma WakingEndsUnsettledLoss(a: Assertion, reg: Registry, ev: Evidence, name: string)
    requires !SettledLoss(a, reg, ev)
    ensures Completes(ev, Waking(ev, name)) && !Lost(a, reg, Waking(ev, name))
  {
    hide ScopedGroups;
    var more := Waking(ev, name);
    assert Completes(ev, more);
    forall kind ensures !Silent(a, kind, more) {
      SignalsKeep(a, kind, ev, more);
      if Silent(a, kind, ev) {
        assert !ArrivalSettled(a, kind, ev);
      }
    }
    forall s | s in ScopedGroups(reg, a.scope) ensures ArrivalOf(a, s.group, more) != Absent {
      assert ArrivalOf(a, s.group, more) == ArrivalOf(a, s.group, ev);
    }
  }

  /** not_delivered survives every completion exactly when some part of the
      loss rests on a presence reading, a whole name reading or a whole group
      reading. */
  lemma LossSurvivesExactly(req: string, a: Assertion, reg: Registry, ev: Evidence)
    requires Verdict(req, a, reg, ev).outcome == NotDelivered
    ensures SettledLoss(a, reg, ev)
       <==> forall more :: Completes(ev, more) ==> Verdict(req, a, reg, more).outcome == NotDelivered
  {
    hide SettledLoss, Completes, Verdict, Lost, WrongShape, Undecided;
    if SettledLoss(a, reg, ev) {
      forall more | Completes(ev, more) ensures Verdict(req, a, reg, more).outcome == NotDelivered {
        LossKeeps(a, reg, ev, more);
        VerdictMeaning(req, a, reg, more);
      }
    } else {
      WakingEndsUnsettledLoss(a, reg, ev, "n");
      VerdictMeaning(req, a, reg, Waking(ev, "n"));
    }
  }

  lemma InPlayMeaning(a: Assertion, groups: seq<Scoped>, ev: Evidence, s: Scoped)
    ensures s in ReadGroups(a, groups, ev).inPlay <==> s in groups && ArrivalOf(a, s.group, ev) == InPlay
  {
  }

  /** A demand drawn at required stays drawn at required, with the same
      members, however many more groups turn out to be in play. */
  lemma RequiredDemandKeeps(a: Assertion, reg: Registry, ev: Evidence, more: Evidence, d: Demand) returns (e: Demand)
    requires Completes(ev, more) && OneDefinition(reg)
    requires RequiredDemand(a, reg, ev, d)
    ensures RequiredDemand(a, reg, more, e) && e.attribute == d.attribute && e.members == d.members
  {
    hide ScopedGroups, DemandsIn, ArrivalOf, OneDefinition, Completes, ReadGroups;
    var scoped := ScopedGroups(reg, a.scope);
    var was, now := ReadGroups(a, scoped, ev).inPlay, ReadGroups(a, scoped, more).inPlay;
    var s := DemandingGroup(was, d);
    InPlayMeaning(a, scoped, ev, s);
    GroupsKeep(a, s.group, ev, more);
    InPlayMeaning(a, scoped, more, s);
    assert Declares(now, d.attribute, Required);
    StrictestLevelWins(now, d.attribute, Required);
    e :| e in DemandsIn(now) && e.attribute == d.attribute && e.level == Required;
    var t := DemandingGroup(now, e);
    InPlayMeaning(a, scoped, more, t);
    SameMembersByDefinition(reg, a.scope, s, d, t, e);
  }

  lemma DemandingGroup(groups: seq<Scoped>, d: Demand) returns (s: Scoped)
    requires d in DemandsIn(groups)
    ensures s in groups && d in s.demands
  {
    DemandsInIsTheStrictestMap(groups);
    StrictestMeaning(Flatten(groups));
    s :| s in groups && d in s.demands;
  }

  lemma SameMembersByDefinition(reg: Registry, scope: Scope, s: Scoped, d: Demand, t: Scoped, e: Demand)
    requires OneDefinition(reg)
    requires s in ScopedGroups(reg, scope) && d in s.demands
    requires t in ScopedGroups(reg, scope) && e in t.demands
    requires d.attribute == e.attribute
    ensures d.members == e.members
  {
    DemandsComeFromTheRegistry(reg, scope, s, d);
    DemandsComeFromTheRegistry(reg, scope, t, e);
    var g, x :| g in reg.groups && x in g.attributes && d == DemandOf(reg, g, x);
    var h, y :| h in reg.groups && y in h.attributes && e == DemandOf(reg, h, y);
  }

  lemma BreachKeeps(a: Assertion, d: Demand, e: Demand, kind: Signal, ev: Evidence, more: Evidence)
    requires Completes(ev, more) && CarriesUndeclared(a, d, kind, ev)
    requires e.attribute == d.attribute && e.members == d.members
    ensures CarriesUndeclared(a, e, kind, more)
  {
  }

  lemma WrongShapeKeeps(a: Assertion, reg: Registry, ev: Evidence, more: Evidence)
    requires Completes(ev, more) && OneDefinition(reg)
    requires !Lost(a, reg, ev) && WrongShape(a, reg, ev)
    ensures WrongShape(a, reg, more)
  {
    hide OneDefinition, RequiredDemand, ScopedGroups;
    var on :| Usable(a, on, ev);
    SignalsKeep(a, on, ev, more);
    if RequiredBreach(a, reg, ev) {
      hide Completes, UndeclaredOn;
      var d, kind :| RequiredDemand(a, reg, ev, d) && CarriesUndeclared(a, d, kind, ev);
      var e := RequiredDemandKeeps(a, reg, ev, more, d);
      BreachKeeps(a, d, e, kind, ev, more);
    } else {
      var d :| RequiredDemand(a, reg, ev, d) && !InUseSomewhere(a, ev, d.attribute);
      var e := RequiredDemandKeeps(a, reg, ev, more, d);
      forall kind ensures !Names(a, kind, more, d.attribute) && !Clipped(a, kind, more) {
        SignalsKeep(a, kind, ev, more);
        assert !Silent(a, kind, ev) && !Clipped(a, kind, ev) && !Names(a, kind, ev, d.attribute);
      }
      assert !InUseSomewhere(a, more, e.attribute);
    }
  }

  /** misconfigured is no artefact of clipped readings: however the truncated
      ones are completed, it stays at least that severe. */
  lemma WrongShapeSurvives(req: string, a: Assertion, reg: Registry, ev: Evidence, more: Evidence)
    requires Completes(ev, more) && OneDefinition(reg)
    requires Verdict(req, a, reg, ev).outcome == Misconfigured
    ensures Verdict(req, a, reg, more).outcome.Severity() >= Misconfigured.Severity()
  {
    VerdictMeaning(req, a, reg, ev);
    VerdictMeaning(req, a, reg, more);
    hide Lost, WrongShape, Undecided, Completes, OneDefinition, Verdict;
    WrongShapeKeeps(a, reg, ev, more);
  }

  // --------------------------------- exactly when a loss stays a serious one

  lemma {:induction false} BreachSurvives(a: Assertion, reg: Registry, ev: Evidence, more: Evidence)
    requires Completes(ev, more) && OneDefinition(reg) && RequiredBreach(a, reg, ev)
    ensures RequiredBreach(a, reg, more) && (Judgeable(a, more) || Lost(a, reg, more))
  {
    hide OneDefinition, RequiredDemand, Completes, ScopedGroups;
    var d, kind :| RequiredDemand(a, reg, ev, d) && CarriesUndeclared(a, d, kind, ev);
    var e := RequiredDemandKeeps(a, reg, ev, more, d);
    BreachKeeps(a, d, e, kind, ev, more);
    assert CarriesUndeclared(a, e, kind, more);
    assert Silent(a, kind, more) || Usable(a, kind, more);
  }

  lemma {:induction false} Bound(names: set<string>) returns (n: nat)
    ensures forall x :: x in names ==> |x| <= n
  {
    n := 0;
    if names != {} {
      var x :| x in names;
      n := Bound(names - {x});
      if n < |x| { n := |x|; }
    }
  }

  /** A name no entry of the registry carries. */
  lemma FreshName(reg: Registry) returns (name: string)
    ensures forall g, x :: g in reg.groups && x in g.attributes ==> x.Key() != name
  {
    var keys := set g, x | g in reg.groups && x in g.attributes :: x.Key();
    var n := Bound(keys);
    name := seq(n + 1, i => 'n');
    assert |name| == n + 1;
  }

  lemma {:induction false} FilterSame<T(!new)>(p: T -> bool, q: T -> bool, s: seq<T>)
    requires forall x :: x in s ==> p(x) == q(x)
    ensures Filter(p, s) == Filter(q, s)
  {
    if s != [] { FilterSame(p, q, s[1..]); }
  }

  /** Waking the names moves no group in or out of play. */
  lemma WakingKeepsDemands(a: Assertion, reg: Registry, ev: Evidence, name: string)
    ensures DemandsInPlay(a, reg, Waking(ev, name)) == DemandsInPlay(a, reg, ev)
  {
    hide ScopedGroups, DemandsIn;
    var more := Waking(ev, name);
    forall s: Scoped ensures ArrivalOf(a, s.group, more) == ArrivalOf(a, s.group, ev) {}
    FilterSame((s: Scoped) => ArrivalOf(a, s.group, ev) == InPlay, (s: Scoped) => ArrivalOf(a, s.group, more) == InPlay,
               ScopedGroups(reg, a.scope));
  }

  lemma WakingAFreshNameBreachesNothing(a: Assertion, reg: Registry, ev: Evidence, name: string)
    requires forall g, x :: g in reg.groups && x in g.attributes ==> x.Key() != name
    requires !RequiredBreach(a, reg, ev)
    ensures !RequiredBreach(a, reg, Waking(ev, name))
  {
    var more := Waking(ev, name);
    WakingKeepsDemands(a, reg, ev, name);
    hide DemandsInPlay, ScopedGroups;
    forall d, kind | RequiredDemand(a, reg, more, d) ensures !CarriesUndeclared(a, d, kind, more) {
      assert RequiredDemand(a, reg, ev, d);
      DemandedIsInTheRegistry(a, reg, ev, d);
      assert more.InUse(a.ReadingOf(kind), d.attribute) <==> ev.InUse(a.ReadingOf(kind), d.attribute);
      assert UndeclaredOn(a, d, kind, more) == UndeclaredOn(a, d, kind, ev);
      assert !CarriesUndeclared(a, d, kind, ev);
    }
  }

  lemma DemandedIsInTheRegistry(a: Assertion, reg: Registry, ev: Evidence, d: Demand)
    requires d in DemandsInPlay(a, reg, ev)
    ensures exists g, x :: g in reg.groups && x in g.attributes && x.Key() == d.attribute
  {
    hide ScopedGroups, DemandsIn, ArrivalOf, ReadGroups;
    var scoped := ScopedGroups(reg, a.scope);
    var s := DemandingGroup(ReadGroups(a, scoped, ev).inPlay, d);
    InPlayMeaning(a, scoped, ev, s);
    DemandsComeFromTheRegistry(reg, a.scope, s, d);
  }

  /** An unsettled loss rests on a clipped reading, which waking leaves
      clipped. */
  lemma WakingStaysClipped(a: Assertion, reg: Registry, ev: Evidence, name: string)
    requires Lost(a, reg, ev) && !SettledLoss(a, reg, ev)
    ensures SomeClipped(a, Waking(ev, name))
  {
    hide ScopedGroups;
    var kind :| Silent(a, kind, ev);
    assert !ArrivalSettled(a, kind, ev);
    assert Clipped(a, kind, Waking(ev, name));
  }

  /** not_delivered stays at least as severe as misconfigured under every
      completion exactly when the loss is settled or a required attribute
      already carries a value the registry does not declare. */
  lemma LossStaysSeriousExactly(req: string, a: Assertion, reg: Registry, ev: Evidence)
    requires OneDefinition(reg) && Verdict(req, a, reg, ev).outcome == NotDelivered
    ensures SettledLoss(a, reg, ev) || RequiredBreach(a, reg, ev)
       <==> forall more :: Completes(ev, more) ==> Verdict(req, a, reg, more).outcome.Severity() >= Misconfigured.Severity()
  {
    VerdictMeaning(req, a, reg, ev);
    hide SettledLoss, Completes, Verdict, Lost, Undecided, RequiredBreach, RequiredMissing, OneDefinition, SomeClipped, Judgeable;
    forall more | Completes(ev, more) && (SettledLoss(a, reg, ev) || RequiredBreach(a, reg, ev))
      ensures Verdict(req, a, reg, more).outcome.Severity() >= Misconfigured.Severity()
    {
      VerdictMeaning(req, a, reg, more);
      if SettledLoss(a, reg, ev) { LossKeeps(a, reg, ev, more); } else { BreachSurvives(a, reg, ev, more); }
    }
    if !SettledLoss(a, reg, ev) && !RequiredBreach(a, reg, ev) {
      var name := FreshName(reg);
      WakingEndsUnsettledLoss(a, reg, ev, name);
      WakingAFreshNameBreachesNothing(a, reg, ev, name);
      WakingStaysClipped(a, reg, ev, name);
      VerdictMeaning(req, a, reg, Waking(ev, name));
    }
  }

  // ------------------------------------------------ exactly when a pass survives

  ghost predicate Clean(a: Assertion, d: Demand, kind: Signal, ev: Evidence) {
    var key := ValueKey(a, kind, d.attribute);
    !Unproven(a, kind, d.attribute, ev) && forall v :: v in ev.values[key].values ==> v in DeclaredValues(d.members)
  }

  /** A clipped name reading may be hiding a required enum attribute whose
      value reading is not there, or is not clean. */
  ghost predicate Exposed(a: Assertion, d: Demand, kind: Signal, ev: Evidence) {
    d.members != [] && Clipped(a, kind, ev) && !ev.InUse(a.ReadingOf(kind), d.attribute) && !Clean(a, d, kind, ev)
  }

  ghost predicate NothingExposed(a: Assertion, reg: Registry, ev: Evidence) {
    forall d, kind :: RequiredDemand(a, reg, ev, d) ==> !Exposed(a, d, kind, ev)
  }

  /** Where every reading the verdict rests on is in hand, completion brings no
      new demand into play and takes none out. */
  lemma PassKeepsDemands(a: Assertion, reg: Registry, ev: Evidence, more: Evidence)
    requires Completes(ev, more) && !Lost(a, reg, ev) && !CannotSee(a, reg, ev)
    ensures DemandsInPlay(a, reg, more) == DemandsInPlay(a, reg, ev)
    ensures !Lost(a, reg, more) && !CannotSee(a, reg, more)
  {
    hide ScopedGroups, DemandsIn;
    var scoped := ScopedGroups(reg, a.scope);
    forall s | s in scoped ensures ArrivalOf(a, s.group, ev) == InPlay && ArrivalOf(a, s.group, more) == InPlay {
      GroupsKeep(a, s.group, ev, more);
    }
    forall kind ensures Silent(a, kind, more) == Silent(a, kind, ev) && Blind(a, kind, more) == Blind(a, kind, ev) {
      SignalsKeep(a, kind, ev, more);
    }
    AllInPlay(a, scoped, ev);
    AllInPlay(a, scoped, more);
  }

  lemma {:induction false} AllInPlay(a: Assertion, groups: seq<Scoped>, ev: Evidence)
    requires forall s :: s in groups ==> ArrivalOf(a, s.group, ev) == InPlay
    ensures ReadGroups(a, groups, ev).inPlay == groups
  {
    hide ArrivalOf;
    KeepAll((s: Scoped) => ArrivalOf(a, s.group, ev) == InPlay, groups);
  }

  lemma {:induction false} KeepAll<T(!new)>(keep: T -> bool, s: seq<T>)
    requires forall x :: x in s ==> keep(x)
    ensures Filter(keep, s) == s
  {
    if s != [] { KeepAll(keep, s[1..]); }
  }

  lemma PassSurvives(a: Assertion, reg: Registry, ev: Evidence, more: Evidence)
    requires Completes(ev, more) && NothingExposed(a, reg, ev)
    requires !Lost(a, reg, ev) && !WrongShape(a, reg, ev) && !Undecided(a, reg, ev)
    ensures !Lost(a, reg, more) && !WrongShape(a, reg, more) && !Undecided(a, reg, more)
  {
    PassKeepsDemands(a, reg, ev, more);
    hide DemandsInPlay, Lost, CannotSee;
    forall d | RequiredDemand(a, reg, more, d) && Judgeable(a, more) ensures InUseSomewhere(a, more, d.attribute) {
      JudgeableWas(a, reg, ev, more);
      assert RequiredDemand(a, reg, ev, d);
      var kind :| Names(a, kind, ev, d.attribute);
      SignalsKeep(a, kind, ev, more);
      assert Names(a, kind, more, d.attribute);
    }
    forall d, kind | RequiredDemand(a, reg, more, d) && d.members != [] && ReadFor(a, kind, d.attribute, more) && Judgeable(a, more)
      ensures UndeclaredOn(a, d, kind, more) == {} && !Unproven(a, kind, d.attribute, more)
    {
      JudgeableWas(a, reg, ev, more);
      assert RequiredDemand(a, reg, ev, d);
      CleanStays(a, reg, d, kind, ev, more);
    }
  }

  lemma JudgeableWas(a: Assertion, reg: Registry, ev: Evidence, more: Evidence)
    requires Completes(ev, more) && !Lost(a, reg, ev) && Judgeable(a, more)
    ensures Judgeable(a, ev)
  {
    var kind :| Usable(a, kind, more);
    SignalsKeep(a, kind, ev, more);
    assert !Silent(a, kind, ev);
  }

  lemma CleanStays(a: Assertion, reg: Registry, d: Demand, kind: Signal, ev: Evidence, more: Evidence)
    requires Completes(ev, more) && NothingExposed(a, reg, ev)
    requires !Lost(a, reg, ev) && !CannotSee(a, reg, ev) && !RequiredBreach(a, reg, ev) && !RequiredDoubt(a, reg, ev)
    requires RequiredDemand(a, reg, ev, d) && d.members != [] && ReadFor(a, kind, d.attribute, more)
    ensures UndeclaredOn(a, d, kind, more) == {} && !Unproven(a, kind, d.attribute, more)
  {
    var key := ValueKey(a, kind, d.attribute);
    if ReadFor(a, kind, d.attribute, ev) {
      assert !CarriesUndeclared(a, d, kind, ev);
      assert !Unproven(a, kind, d.attribute, ev);
      assert more.values[key] == ev.values[key];
      forall v | v in ev.values[key].values ensures v in DeclaredValues(d.members) {
        assert v !in UndeclaredOn(a, d, kind, ev);
      }
    } else {
      assert !Silent(a, kind, ev) && !Blind(a, kind, ev);
      assert Clipped(a, kind, ev);
      assert !Exposed(a, d, kind, ev);
      assert Clean(a, d, kind, ev);
      assert more.values[key] == ev.values[key];
    }
  }

  /** The completion that names the hidden attribute. */
  function Naming(a: Assertion, kind: Signal, attribute: string, ev: Evidence): Evidence
    requires a.ReadingOf(kind) in ev.names
  {
    var key := a.ReadingOf(kind);
    ev.(names := ev.names[key := ev.names[key].(names := ev.names[key].names + [attribute])])
  }

  lemma NamingCompletes(a: Assertion, kind: Signal, attribute: string, ev: Evidence)
    requires Clipped(a, kind, ev)
    ensures Completes(ev, Naming(a, kind, attribute, ev))
    ensures Naming(a, kind, attribute, ev).InUse(a.ReadingOf(kind), attribute)
  {
  }

  lemma ExposureBreaksThePass(a: Assertion, reg: Registry, ev: Evidence, d: Demand, kind: Signal)
    requires !Lost(a, reg, ev) && !CannotSee(a, reg, ev)
    requires RequiredDemand(a, reg, ev, d) && Exposed(a, d, kind, ev)
    ensures var more := Naming(a, kind, d.attribute, ev);
      Completes(ev, more) && (WrongShape(a, reg, more) || Undecided(a, reg, more))
  {
    var more := Naming(a, kind, d.attribute, ev);
    var key := ValueKey(a, kind, d.attribute);
    NamingCompletes(a, kind, d.attribute, ev);
    PassKeepsDemands(a, reg, ev, more);
    assert RequiredDemand(a, reg, more, d);
    SignalsKeep(a, kind, ev, more);
    hide Completes, DemandsInPlay, Lost, CannotSee;
    assert Judgeable(a, more);
    assert ReadFor(a, kind, d.attribute, more);
    if !Unproven(a, kind, d.attribute, ev) {
      var v :| v in ev.values[key].values && v !in DeclaredValues(d.members);
      assert v in UndeclaredOn(a, d, kind, more);
      assert CarriesUndeclared(a, d, kind, more);
      assert RequiredBreach(a, reg, more);
    } else {
      assert RequiredDoubt(a, reg, more);
    }
  }

  /** A pass survives every completion exactly when no clipped name reading
      can be hiding a required enum attribute. */
  lemma PassSurvivesExactly(req: string, a: Assertion, reg: Registry, ev: Evidence)
    requires Verdict(req, a, reg, ev).outcome == Compliant
    ensures NothingExposed(a, reg, ev)
       <==> forall more :: Completes(ev, more) ==> Verdict(req, a, reg, more).outcome == Compliant
  {
    VerdictMeaning(req, a, reg, ev);
    hide Verdict, Lost, WrongShape, Completes, Exposed, RequiredDemand;
    if NothingExposed(a, reg, ev) {
      forall more | Completes(ev, more) ensures Verdict(req, a, reg, more).outcome == Compliant {
        PassSurvives(a, reg, ev, more);
        VerdictMeaning(req, a, reg, more);
      }
    } else {
      var d, kind :| RequiredDemand(a, reg, ev, d) && Exposed(a, d, kind, ev);
      ExposedIsNamedByAReading(a, d, kind, ev);
      ExposureBreaksThePass(a, reg, ev, d, kind);
      VerdictMeaning(req, a, reg, Naming(a, kind, d.attribute, ev));
    }
  }

  lemma ExposedIsNamedByAReading(a: Assertion, d: Demand, kind: Signal, ev: Evidence)
    requires Exposed(a, d, kind, ev)
    ensures a.ReadingOf(kind) in ev.names
  {
  }

  /** A requirement judged on one signal: its passes always survive. */
  lemma PassSurvivesOnOneSignal(req: string, a: Assertion, reg: Registry, ev: Evidence, more: Evidence, only: Signal)
    requires forall kind :: a.Covers(kind) <==> kind == only
    requires Verdict(req, a, reg, ev).outcome == Compliant && Completes(ev, more)
    ensures Verdict(req, a, reg, more).outcome == Compliant
  {
    VerdictMeaning(req, a, reg, ev);
    PassSurvivesExactly(req, a, reg, ev);
    hide Verdict, Completes, RequiredDemand, Lost, CannotSee;
    forall d, kind | RequiredDemand(a, reg, ev, d) ensures !Exposed(a, d, kind, ev) {
      if Clipped(a, kind, ev) {
        assert Judgeable(a, ev) && InUseSomewhere(a, ev, d.attribute);
        OnlySignalNames(a, ev, d.attribute, kind);
      }
    }
  }

  lemma OnlySignalNames(a: Assertion, ev: Evidence, attribute: string, only: Signal)
    requires forall kind :: a.Covers(kind) ==> kind == only
    requires InUseSomewhere(a, ev, attribute)
    ensures ev.InUse(a.ReadingOf(only), attribute)
  {
  }
}
