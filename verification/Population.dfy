/** How many collectors a Tier should have and does: the resolved floor, the
    findings a shortfall raises, and when over a run of observations one is a
    violation (internal/inventory/floor.go, internal/inventory/findings.go). */
module Population {
  import opened Base
  import opened Verdicts
  import opened Staleness
  import opened Dampening

  /** `derived` is the live count when it is known; `shortfallSince` is what
      the shared clock says of the Tier. */
  datatype Population = Population(
    tier: string,
    derived: Option<int>,
    declared: int,
    seen: int,
    everSeen: bool,
    firstWatched: Option<int>,
    shortfallSince: Option<int>)
  {
    function Floor(): Floor { ResolveFloor(derived, declared) }
  }

  datatype PopulationClass = NeverSeen | UnderPopulated | FloorConflict

  datatype PopulationFinding = PopulationFinding(
    class_: PopulationClass, tier: string, grade: Grade, floor: Floor, seen: int, since: Option<int>, staleConfig: bool)

  /** A live count wins, a zero one too; a positive declaration stands in. */
  function ResolveFloor(derived: Option<int>, declared: int): Floor {
    if derived.Some? then Floor(FloorDerived, derived.value)
    else if declared > 0 then Floor(FloorDeclared, declared)
    else Floor(FloorAbsent, 0)
  }

  predicate Toothed(floor: Floor) { !floor.source.FloorAbsent? && floor.min > 0 }

  predicate Elapsed(since: Option<int>, window: int, now: int) {
    since.Some? && Sub(now, since.value) >= window
  }

  /** A floor with teeth, and a shortfall that outlasted the window. */
  predicate Breached(p: Population, w: Windows, now: int) {
    Toothed(p.Floor()) && Elapsed(p.shortfallSince, w.Grace(), now) && (p.everSeen ==> p.seen < p.Floor().min)
  }

  predicate Conflicts(p: Population) { p.derived.Some? && p.declared > p.derived.value }

  /** What a Tier's standing itself raises, beside any conflict of floors. */
  function StandingFindings(p: Population, w: Windows, now: int): seq<PopulationFinding> {
    if Breached(p, w, now) then
      if p.everSeen then [PopulationFinding(UnderPopulated, p.tier, Violation, p.Floor(), p.seen, p.shortfallSince, false)]
      else [PopulationFinding(NeverSeen, p.tier, Violation, p.Floor(), 0, p.shortfallSince, false)]
    else if p.everSeen then []
    else [PopulationFinding(NeverSeen, p.tier, Neutral, p.Floor(), 0, p.firstWatched, Elapsed(p.firstWatched, w.StaleAge(), now))]
  }

  function PopulationFindings(p: Population, w: Windows, now: int): seq<PopulationFinding> {
    (if Conflicts(p) then [PopulationFinding(FloorConflict, p.tier, Advisory, p.Floor(), p.seen, None, false)] else [])
    + StandingFindings(p, w, now)
  }

  method JudgePopulation(p: Population, w: Windows, now: int) returns (out: seq<PopulationFinding>)
    ensures out == PopulationFindings(p, w, now)
  {
    var grace, staleAge := w.Grace(), w.StaleAge();
    var floor := ResolveFloor(p.derived, p.declared);
    out := [];
    if p.derived.Some? && p.declared > p.derived.value {
      out := out + [PopulationFinding(FloorConflict, p.tier, Advisory, floor, p.seen, None, false)];
    }
    var toothed := !floor.source.FloorAbsent? && floor.min > 0;
    var persisted := p.shortfallSince.Some? && Sub(now, p.shortfallSince.value) >= grace;
    if !p.everSeen {
      var f := PopulationFinding(NeverSeen, p.tier, Neutral, floor, 0, p.firstWatched, false);
      if toothed && persisted {
        out := out + [f.(grade := Violation, since := p.shortfallSince)];
        return;
      }
      if p.firstWatched.Some? && Sub(now, p.firstWatched.value) >= staleAge { f := f.(staleConfig := true); }
      out := out + [f];
    } else if toothed && p.seen < floor.min && persisted {
      out := out + [PopulationFinding(UnderPopulated, p.tier, Violation, floor, p.seen, p.shortfallSince, false)];
    }
  }

  ghost predicate Violated(p: Population, w: Windows, now: int) {
    exists f :: f in PopulationFindings(p, w, now) && f.grade.Violation?
  }

  lemma RedIsBreached(p: Population, w: Windows, now: int)
    ensures Violated(p, w, now) <==> Breached(p, w, now)
  {
    if Breached(p, w, now) {
      var f := StandingFindings(p, w, now)[0];
      assert f in PopulationFindings(p, w, now);
    }
  }

  // ---- over a run --------------------------------------------------------

  /** One observation of a Tier, judged against the clock the run shares. */
  datatype Look = Look(population: Population, now: int)

  function Shortfall(look: Look, w: Windows): Judgement {
    Judgement(look.population.tier, if Short(look.population.Floor(), look.population.seen) then Silent else Met, w.Grace(), look.now)
  }

  function Shortfalls(looks: seq<Look>, w: Windows): (js: seq<Judgement>)
    ensures |js| == |looks| && forall i :: 0 <= i < |js| ==> js[i] == Shortfall(looks[i], w)
  {
    seq(|looks|, i requires 0 <= i < |looks| => Shortfall(looks[i], w))
  }

  /** The population with what the clock answers when it is observed. */
  method ObservePopulation(p: Population, damper: Damper, w: Windows, now: int) returns (seen: Population)
    modifies damper
    ensures damper.onset == Next(old(damper.onset), Shortfall(Look(p, now), w))
    ensures seen == Observed(old(damper.onset), Look(p, now), w)
  {
    var since := damper.Observe(p.tier, p.seen, ResolveFloor(p.derived, p.declared), now);
    seen := p.(shortfallSince := since);
  }

  function Observed(onset: map<string, int>, look: Look, w: Windows): Population {
    look.population.(shortfallSince := Since(onset, Shortfall(look, w)))
  }

  /** Short of the live count or, with none, of a positive declaration. */
  ghost predicate ShortOfFloor(p: Population) {
    match p.derived
    case Some(n) => n > 0 && p.seen < n
    case None => p.declared > 0 && p.seen < p.declared
  }

  ghost function GraceWindow(w: Windows): int { if w.grace > 0 then w.grace else 300_000_000_000 }

  /** Ninety days unless configured. */
  ghost function StaleWindow(w: Windows): int { if w.staleAge > 0 then w.staleAge else 7_776_000_000_000_000 }

  /** Short of its floor at every look at the Tier from `j` to `i`. */
  ghost predicate ShortFrom(looks: seq<Look>, j: nat, i: nat)
    requires i < |looks|
  {
    forall k :: j <= k <= i && looks[k].population.tier == looks[i].population.tier ==> ShortOfFloor(looks[k].population)
  }

  lemma ShortIsSilent(looks: seq<Look>, w: Windows, j: nat, i: nat)
    requires j <= i < |looks|
    ensures SilentFrom(Shortfalls(looks, w), j, i + 1, looks[i].population.tier) <==> ShortFrom(looks, j, i)
  {
    var js := Shortfalls(looks, w);
    assert forall k :: 0 <= k < |js| ==>
      (js[k].evidence.Silent? <==> ShortOfFloor(looks[k].population)) && js[k].key == looks[k].population.tier;
    hide ShortOfFloor;
    if SilentFrom(js, j, i + 1, looks[i].population.tier) {
      forall k | j <= k <= i && looks[k].population.tier == looks[i].population.tier ensures ShortOfFloor(looks[k].population) {
        assert js[k].evidence.Silent?;
      }
    }
  }

  /** Over any run of observations sharing one clock, a Tier's population is a
      violation exactly when it is short of its floor now and has been at
      every observation back a whole grace window: to an earlier one, or to
      what the clock held before. One instant never raises it, and neither
      does a surplus. */
  lemma ViolationExactly(onset: map<string, int>, looks: seq<Look>, w: Windows, i: nat)
    requires i < |looks| && Forward(onset, Shortfalls(looks, w)) && IsDuration(w.grace)
    ensures Violated(Observed(Play(onset, Shortfalls(looks, w)[..i]), looks[i], w), w, looks[i].now) <==>
        || (exists j :: 0 <= j <= i && looks[j].population.tier == looks[i].population.tier
              && ShortFrom(looks, j, i) && looks[i].now - looks[j].now >= GraceWindow(w))
        || (looks[i].population.tier in onset && ShortFrom(looks, 0, i)
              && looks[i].now - onset[looks[i].population.tier] >= GraceWindow(w))
  {
    var js := Shortfalls(looks, w);
    RedExactly(onset, js, i);
    RedIsBreached(Observed(Play(onset, js[..i]), looks[i], w), w, looks[i].now);
    forall j | 0 <= j <= i ensures SilentFrom(js, j, i + 1, looks[i].population.tier) <==> ShortFrom(looks, j, i) {
      ShortIsSilent(looks, w, j, i);
    }
    hide Play, SilentFrom, ShortFrom, Sub;
  }

  // ---- what one look raises ------------------------------------------------

  /** A floor above zero, missed, with a shortfall a whole grace window old; a
      Tier never seen misses any. */
  ghost predicate Overdue(p: Population, w: Windows, now: int) {
    && p.shortfallSince.Some? && now - p.shortfallSince.value >= GraceWindow(w)
    && match p.derived
       case Some(n) => n > 0 && (p.everSeen ==> p.seen < n)
       case None => p.declared > 0 && (p.everSeen ==> p.seen < p.declared)
  }

  /** Watched a whole window without one collector. */
  ghost predicate LooksStale(p: Population, w: Windows, now: int) {
    p.firstWatched.Some? && now - p.firstWatched.value >= StaleWindow(w)
  }

  ghost predicate NamesFloor(p: Population, floor: Floor) {
    match p.derived
    case Some(n) => floor == Floor(FloorDerived, n)
    case None => if p.declared > 0 then floor == Floor(FloorDeclared, p.declared) else floor == Floor(FloorAbsent, 0)
  }

  /** An advisory first where the declaration is above the live count; then a
      violation where the Tier is overdue, or the neutral finding of a Tier
      never seen, or nothing. */
  lemma PopulationFindingsAre(p: Population, w: Windows, now: int)
    requires IsDuration(w.grace) && IsDuration(w.staleAge)
    ensures var out := PopulationFindings(p, w, now);
            var conflict := p.derived.Some? && p.declared > p.derived.value;
            var standing := Overdue(p, w, now) || !p.everSeen;
            && |out| == (if conflict then 1 else 0) + (if standing then 1 else 0)
            && (forall f :: f in out ==> f.tier == p.tier && NamesFloor(p, f.floor))
            && (conflict ==> out[0].class_ == FloorConflict && out[0].grade == Advisory && out[0].seen == p.seen && out[0].since == None)
            && (standing ==>
                  var f := out[|out| - 1];
                  && f.class_ == (if p.everSeen then UnderPopulated else NeverSeen)
                  && f.grade == (if Overdue(p, w, now) then Violation else Neutral)
                  && f.seen == (if p.everSeen then p.seen else 0)
                  && f.since == (if Overdue(p, w, now) then p.shortfallSince else p.firstWatched)
                  && (f.staleConfig <==> !Overdue(p, w, now) && LooksStale(p, w, now)))
  {
    assert Breached(p, w, now) <==> Overdue(p, w, now);
    assert Elapsed(p.firstWatched, w.StaleAge(), now) <==> LooksStale(p, w, now);
    hide Breached, Overdue, Elapsed, LooksStale;
  }
}
