/** The evaluation of a row's data claims and of a Tier's pipeline claims, and
    runs of both over one shared clock (internal/expectation/evaluate.go). */
module ClaimJudgement {
  import opened Base
  import opened Verdicts
  import opened Expectation
  import opened Staleness
  import opened Dampening
  import opened Population

  // ---- evidence ----------------------------------------------------------

  datatype SignalObservation = SignalObservation(known: bool, present: bool, coverage: map<string, real>)

  datatype RowEvidence = RowEvidence(appliedAt: Option<int>, observed: map<Signal, SignalObservation>)

  datatype SelfSignal = SelfSignal(known: bool, components: seq<map<string, string>>)

  /** An empty `runningSHA` means the running artefact is unknown. */
  datatype TierEvidence = TierEvidence(
    runningSHA: string, appliedAt: Option<int>, self: map<Signal, SelfSignal>, population: Population)

  datatype SignalAssertion = SignalAssertion(kind: Signal, requiredAttributes: seq<string>)

  datatype Demand = Demand(environments: seq<string>, signal: Option<SignalAssertion>)

  predicate AppliesTo(d: Demand, environment: string) {
    d.environments == [] || environment in d.environments
  }

  predicate DemandedBy(c: Claim, d: Demand) {
    && !c.SelfTelemetry?
    && d.signal.Some?
    && AppliesTo(d, c.environment)
    && d.signal.value.kind == c.signal
    && (c.Enrichment? ==> c.attribute in d.signal.value.requiredAttributes)
  }

  predicate Backed(c: Claim, library: seq<Demand>) {
    exists d :: d in library && DemandedBy(c, d)
  }

  function DataEvidence(c: Claim, ev: RowEvidence, cfg: Config, now: int): Evidence
    requires !c.SelfTelemetry?
  {
    if IsSettling(ev.appliedAt, cfg.SettleFor(c), now) then Settling
    else if c.signal !in ev.observed || !ev.observed[c.signal].known then NoReading
    else
      var sig := ev.observed[c.signal];
      if c.Arrival? then (if sig.present then Met else Silent)
      else if !sig.present then NothingLanded
      else if c.attribute !in sig.coverage then NotMeasured
      else if sig.coverage[c.attribute] > 0.0 then Met
      else Silent
  }

  function DataJudgement(c: Claim, ev: RowEvidence, cfg: Config, now: int): Judgement
    requires !c.SelfTelemetry?
  {
    Judgement(Key(c), DataEvidence(c, ev, cfg, now), cfg.Grace(), now)
  }

  // ---- self-telemetry readings -------------------------------------------

  const SELF_SIGNALS: seq<Signal> := [Logs, Metrics]

  datatype ComponentReading = OfComponent(kind: string, id: string) | OfKind(kind: string) | OfNothing

  /** The join of one reported attribute combination to a component. */
  function Normalise(attrs: map<string, string>): ComponentReading {
    if "receiver" in attrs then OfComponent("receiver", attrs["receiver"])
    else if "processor" in attrs then OfComponent("processor", attrs["processor"])
    else if "exporter" in attrs then OfComponent("exporter", attrs["exporter"])
    else if "otelcol.component.kind" !in attrs then OfNothing
    else if attrs["otelcol.component.kind"] in ["capabilities", "fanout"] then OfNothing
    else if "otelcol.component.id" !in attrs || attrs["otelcol.component.id"] == "" then OfKind(attrs["otelcol.component.kind"])
    else OfComponent(attrs["otelcol.component.kind"], attrs["otelcol.component.id"])
  }

  /** Some known self-telemetry signal carries this reading. */
  ghost predicate Reported(self: map<Signal, SelfSignal>, r: ComponentReading) {
    exists k, a :: k in SELF_SIGNALS && k in self && self[k].known && a in self[k].components && Normalise(a) == r
  }

  method ObservedComponents(self: map<Signal, SelfSignal>)
    returns (identified: set<(string, string)>, unidentified: set<string>)
    ensures forall kind, id :: (kind, id) in identified <==> Reported(self, OfComponent(kind, id))
    ensures forall kind :: kind in unidentified <==> Reported(self, OfKind(kind))
  {
    identified, unidentified := {}, {};
    ghost var seen: set<ComponentReading> := {};
    for i := 0 to |SELF_SIGNALS|
      invariant forall r :: r in seen <==> exists k, a ::
        k in SELF_SIGNALS[..i] && k in self && self[k].known && a in self[k].components && Normalise(a) == r
      invariant forall kind, id :: (kind, id) in identified <==> OfComponent(kind, id) in seen
      invariant forall kind :: kind in unidentified <==> OfKind(kind) in seen
    {
      var kind := SELF_SIGNALS[i];
      assert SELF_SIGNALS[..i + 1] == SELF_SIGNALS[..i] + [kind];
      if kind !in self || !self[kind].known { continue; }
      var components := self[kind].components;
      ghost var before := seen;
      for j := 0 to |components|
        invariant forall r :: r in seen <==> r in before || exists a :: a in components[..j] && Normalise(a) == r
        invariant forall kind, id :: (kind, id) in identified <==> OfComponent(kind, id) in seen
        invariant forall kind :: kind in unidentified <==> OfKind(kind) in seen
      {
        assert components[..j + 1] == components[..j] + [components[j]];
        var r := Normalise(components[j]);
        seen := seen + {r};
        match r {
          case OfComponent(k, id) => identified := identified + {(k, id)};
          case OfKind(k) => unidentified := unidentified + {k};
          case OfNothing =>
        }
      }
      assert components[..|components|] == components;
    }
    assert SELF_SIGNALS[..|SELF_SIGNALS|] == SELF_SIGNALS;
  }

  /** Nothing can be judged: no artefact is known to be in force, nothing
      runs, or nobody can see the self-telemetry. */
  predicate TierGated(ev: TierEvidence) {
    || ev.runningSHA == ""
    || ev.population.seen == 0
    || forall k :: k in SELF_SIGNALS && k in ev.self ==> !ev.self[k].known
  }

  /** The claim's component was heard, by id, or by kind alone where the
      claim expects the id to be dropped. */
  ghost predicate Heard(c: Claim, self: map<Signal, SelfSignal>)
    requires c.SelfTelemetry?
  {
    || Reported(self, OfComponent(c.componentKind, c.component))
    || (c.shape.Unidentified? && Reported(self, OfKind(c.componentKind)))
  }

  ghost function TierJudgement(c: Claim, ev: TierEvidence, cfg: Config, now: int): Judgement
    requires c.SelfTelemetry?
  {
    var evidence :=
      if TierGated(ev) then Gated
      else if IsSettling(ev.appliedAt, cfg.SettleSelf(), now) then Settling
      else if Heard(c, ev.self) then Met
      else Silent;
    Judgement(Key(c), evidence, cfg.Grace(), now)
  }

  // ---- results -----------------------------------------------------------

  datatype ClaimResult = ClaimResult(claim: Claim, status: Status, backed: bool, since: Option<int>)

  /** A red data claim nobody demanded is advice to the Service, a red pipeline
      claim a violation on its Tier, and a population finding a delivery
      finding on its own. */
  datatype Raised =
    | AdvisoryOn(service: string, key: string)
    | ViolationOn(tier: string, key: string)
    | DeliveryOn(tier: string, grade: Grade)

  function DeliveryFindings(fs: seq<PopulationFinding>): (r: seq<Raised>)
    ensures |r| == |fs| && forall i :: 0 <= i < |r| ==> r[i] == DeliveryOn(fs[i].tier, fs[i].grade)
  {
    seq(|fs|, i requires 0 <= i < |fs| => DeliveryOn(fs[i].tier, fs[i].grade))
  }

  method DeliveryFindingsLoop(fs: seq<PopulationFinding>) returns (out: seq<Raised>)
    ensures out == DeliveryFindings(fs)
  {
    out := [];
    for i := 0 to |fs|
      invariant out == DeliveryFindings(fs)[..i]
    {
      out := out + [DeliveryOn(fs[i].tier, fs[i].grade)];
    }
  }

  function RowJudgements(claims: seq<Claim>, ev: RowEvidence, cfg: Config, now: int): seq<Judgement>
    requires forall c :: c in claims ==> !c.SelfTelemetry?
  {
    seq(|claims|, i requires 0 <= i < |claims| => DataJudgement(claims[i], ev, cfg, now))
  }

  ghost function TierJudgements(claims: seq<Claim>, ev: TierEvidence, cfg: Config, now: int): seq<Judgement>
    requires forall c :: c in claims ==> c.SelfTelemetry?
  {
    seq(|claims|, i requires 0 <= i < |claims| => TierJudgement(claims[i], ev, cfg, now))
  }

  /** The results of a run of judgements, each against the clock as the ones
      before it left it. */
  ghost predicate ResultsOf(results: seq<ClaimResult>, claims: seq<Claim>, js: seq<Judgement>, onset: map<string, int>) {
    && |results| == |claims| == |js|
    && forall i :: 0 <= i < |claims| ==> IsResult(results[i], claims[i], js[i], Play(onset, js[..i]))
  }

  ghost predicate IsResult(r: ClaimResult, c: Claim, j: Judgement, onset: map<string, int>) {
    r.claim == c && r.status == StatusOf(onset, j) && r.since == Since(onset, j)
  }

  function Advisories(results: seq<ClaimResult>): seq<Raised> {
    if results == [] then []
    else
      var r := results[|results| - 1];
      Advisories(results[..|results| - 1]) +
        if r.status.Red? && !r.backed && !r.claim.SelfTelemetry? then [AdvisoryOn(r.claim.service, Key(r.claim))] else []
  }

  function Violations(results: seq<ClaimResult>): seq<Raised> {
    if results == [] then []
    else
      var r := results[|results| - 1];
      Violations(results[..|results| - 1]) +
        if r.status.Red? && r.claim.SelfTelemetry? then [ViolationOn(r.claim.tier, Key(r.claim))] else []
  }

  // ---- the evaluators ----------------------------------------------------

  method IsBacked(c: Claim, library: seq<Demand>) returns (b: bool)
    requires !c.SelfTelemetry?
    ensures b == Backed(c, library)
  {
    for i := 0 to |library|
      invariant !Backed(c, library[..i])
    {
      var d := library[i];
      assert library[..i + 1] == library[..i] + [d];
      assert d in library;
      if d.signal.None? || !AppliesTo(d, c.environment) || d.signal.value.kind != c.signal { continue; }
      if c.Arrival? { return true; }
      var attributes := d.signal.value.requiredAttributes;
      for k := 0 to |attributes|
        invariant c.attribute !in attributes[..k]
      {
        if attributes[k] == c.attribute { return true; }
      }
    }
    assert library[..|library|] == library;
    b := false;
  }

  method JudgeDataClaim(c: Claim, ev: RowEvidence, damper: Damper, cfg: Config, now: int)
    returns (status: Status, since: Option<int>)
    requires !c.SelfTelemetry?
    modifies damper
    ensures var j := DataJudgement(c, ev, cfg, now);
            && damper.onset == Next(old(damper.onset), j)
            && status == StatusOf(old(damper.onset), j)
            && since == Since(old(damper.onset), j)
  {
    var key := Key(c);
    if IsSettling(ev.appliedAt, cfg.SettleFor(c), now) {
      damper.ClearShortfall(key, now);
      return Pending, None;
    }
    if c.signal !in ev.observed || !ev.observed[c.signal].known {
      damper.ClearShortfall(key, now);
      return StatusUnknown, None;
    }
    var sig := ev.observed[c.signal];
    var met := false;
    if c.Arrival? {
      met := sig.present;
    } else {
      if !sig.present || c.attribute !in sig.coverage {
        damper.ClearShortfall(key, now);
        return StatusUnknown, None;
      }
      met := sig.coverage[c.attribute] > 0.0;
    }
    if met {
      damper.ClearShortfall(key, now);
      return Green, None;
    }
    since := damper.Observe(key, 0, CLAIM_FLOOR, now);
    status := if Sub(now, since.value) < cfg.Grace() then Pending else Red;
  }

  method EvaluateRow(s: Set, service: string, environment: string, library: seq<Demand>, ev: RowEvidence,
                     damper: Damper, cfg: Config, now: int)
    returns (results: seq<ClaimResult>, raised: seq<Raised>)
    modifies damper
    ensures var claims := ForRow(s.claims, service, environment);
            var js := RowJudgements(claims, ev, cfg, now);
            && damper.onset == Play(old(damper.onset), js)
            && ResultsOf(results, claims, js, old(damper.onset))
    ensures forall r :: r in results ==> r.backed == Backed(r.claim, library)
    ensures raised == Advisories(results)
  {
    hide DataJudgement, Backed, ForRow, Key, Play, Next, StatusOf, Since, ResultsOf;
    PlayNothing(damper.onset);
    assert ResultsOf([], [], [], damper.onset) by { NoResults(damper.onset); }
    var claims := ForRowLoop(s, service, environment);
    ghost var js := RowJudgements(claims, ev, cfg, now);
    results, raised := [], [];
    for i := 0 to |claims|
      invariant damper.onset == Play(old(damper.onset), js[..i])
      invariant ResultsOf(results, claims[..i], js[..i], old(damper.onset))
      invariant forall r :: r in results ==> r.backed == Backed(r.claim, library)
      invariant raised == Advisories(results)
    {
      var c := claims[i];
      assert c in claims;
      var backed := IsBacked(c, library);
      var status, since := JudgeDataClaim(c, ev, damper, cfg, now);
      var r := ClaimResult(c, status, backed, since);
      ResultsGrow(results, claims, js, old(damper.onset), i, r);
      assert (results + [r])[..|results|] == results;
      results := results + [r];
      if status.Red? && !backed {
        raised := raised + [AdvisoryOn(c.service, Key(c))];
      }
    }
    assert js[..|claims|] == js && claims[..|claims|] == claims;
  }

  lemma ResultsGrow(results: seq<ClaimResult>, claims: seq<Claim>, js: seq<Judgement>, onset: map<string, int>, i: nat, r: ClaimResult)
    requires |js| == |claims| && i < |claims|
    requires ResultsOf(results, claims[..i], js[..i], onset)
    requires IsResult(r, claims[i], js[i], Play(onset, js[..i]))
    ensures ResultsOf(results + [r], claims[..i + 1], js[..i + 1], onset)
    ensures Play(onset, js[..i + 1]) == Next(Play(onset, js[..i]), js[i])
  {
    hide IsResult, Next;
    assert js[..i + 1][..i] == js[..i];
    hide Play;
    forall k | 0 <= k <= i
      ensures IsResult((results + [r])[k], claims[..i + 1][k], js[..i + 1][k], Play(onset, js[..i + 1][..k]))
    {
      assert js[..i + 1][..k] == js[..k];
      if k < i {
        assert js[..i][..k] == js[..k];
        assert IsResult(results[k], claims[..i][k], js[..i][k], Play(onset, js[..i][..k]));
      }
    }
  }

  lemma NoResults(onset: map<string, int>)
    ensures ResultsOf([], [], [], onset)
  {
  }

  /** Claims all judged alike, without asking the clock: each is cleared. */
  method ClearAll(claims: seq<Claim>, status: Status, damper: Damper, now: int, ghost js: seq<Judgement>)
    returns (results: seq<ClaimResult>)
    requires |js| == |claims|
    requires forall i :: 0 <= i < |claims| ==>
      js[i].key == Key(claims[i]) && !js[i].evidence.Silent? && forall onset :: StatusOf(onset, js[i]) == status
    modifies damper
    ensures damper.onset == Play(old(damper.onset), js)
    ensures ResultsOf(results, claims, js, old(damper.onset))
    ensures forall r :: r in results ==> !r.backed
  {
    hide StatusOf, Key;
    results := [];
    for i := 0 to |claims|
      invariant damper.onset == Play(old(damper.onset), js[..i])
      invariant ResultsOf(results, claims[..i], js[..i], old(damper.onset))
      invariant forall r :: r in results ==> !r.backed
    {
      damper.ClearShortfall(Key(claims[i]), now);
      var r := ClaimResult(claims[i], status, false, None);
      ResultsGrow(results, claims, js, old(damper.onset), i, r);
      results := results + [r];
    }
    assert js[..|claims|] == js && claims[..|claims|] == claims;
  }

  method JudgePipelineClaim(c: Claim, heard: bool, damper: Damper, cfg: Config, now: int)
    returns (status: Status, since: Option<int>)
    modifies damper
    ensures var j := Judgement(Key(c), if heard then Met else Silent, cfg.Grace(), now);
            && damper.onset == Next(old(damper.onset), j)
            && status == StatusOf(old(damper.onset), j)
            && since == Since(old(damper.onset), j)
  {
    hide Key;
    if heard {
      damper.ClearShortfall(Key(c), now);
      return Green, None;
    }
    since := damper.Observe(Key(c), 0, CLAIM_FLOOR, now);
    status := if Sub(now, since.value) < cfg.Grace() then Pending else Red;
  }

  /** The claims of a Tier that can be judged: heard or silent. */
  method JudgeTierClaims(claims: seq<Claim>, ev: TierEvidence, damper: Damper, cfg: Config, now: int)
    returns (results: seq<ClaimResult>, raised: seq<Raised>)
    requires forall c :: c in claims ==> c.SelfTelemetry?
    requires !TierGated(ev) && !IsSettling(ev.appliedAt, cfg.SettleSelf(), now)
    modifies damper
    ensures damper.onset == Play(old(damper.onset), TierJudgements(claims, ev, cfg, now))
    ensures ResultsOf(results, claims, TierJudgements(claims, ev, cfg, now), old(damper.onset))
    ensures forall r :: r in results ==> !r.backed
    ensures raised == Violations(results)
  {
    hide Key, Reported, StatusOf, Since, Next, ForTier, TierGated;
    var identified, unidentified := ObservedComponents(ev.self);
    ghost var js := TierJudgements(claims, ev, cfg, now);
    results, raised := [], [];
    for i := 0 to |claims|
      invariant damper.onset == Play(old(damper.onset), js[..i])
      invariant ResultsOf(results, claims[..i], js[..i], old(damper.onset))
      invariant forall r :: r in results ==> !r.backed
      invariant raised == Violations(results)
    {
      var c := claims[i];
      assert c in claims;
      var matched := (c.componentKind, c.component) in identified || (c.shape.Unidentified? && c.componentKind in unidentified);
      assert matched <==> Heard(c, ev.self);
      var status, since := JudgePipelineClaim(c, matched, damper, cfg, now);
      var r := ClaimResult(c, status, false, since);
      ResultsGrow(results, claims, js, old(damper.onset), i, r);
      assert (results + [r])[..|results|] == results;
      results := results + [r];
      if status.Red? { raised := raised + [ViolationOn(c.tier, Key(c))]; }
    }
    assert js[..|claims|] == js && claims[..|claims|] == claims;
  }

  datatype Mismatch = DerivedElsewhere(derived: string, running: string)

  datatype TierResult = TierResult(results: seq<ClaimResult>, population: seq<PopulationFinding>, raised: seq<Raised>)

  /** Judging one artefact's claims against another's telemetry is refused,
      and touches no clock. */
  predicate Mismatched(s: Set, ev: TierEvidence) {
    ev.runningSHA != "" && s.sha != ev.runningSHA
  }

  method EvaluateTier(s: Set, tier: string, ev: TierEvidence, damper: Damper, cfg: Config, now: int)
    returns (out: Result<TierResult, Mismatch>)
    modifies damper
    ensures out.Err? <==> Mismatched(s, ev)
    ensures out.Err? ==> damper.onset == old(damper.onset)
    ensures var js := TierJudgements(ForTier(s.claims, tier), ev, cfg, now);
            out.Ok? ==>
              && damper.onset == Play(old(damper.onset), js)
              && ResultsOf(out.value.results, ForTier(s.claims, tier), js, old(damper.onset))
              && out.value.population == PopulationFindings(ev.population, cfg.population, now)
              && out.value.raised == DeliveryFindings(out.value.population) + Violations(out.value.results)
    ensures out.Ok? && TierGated(ev) ==> out.value.raised == DeliveryFindings(out.value.population)
  {
    hide ForTier, Heard, Key, PopulationFindings, DeliveryFindings;
    if Mismatched(s, ev) {
      return Err(DerivedElsewhere(s.sha, ev.runningSHA));
    }
    var population := JudgePopulation(ev.population, cfg.population, now);
    var delivery := DeliveryFindingsLoop(population);
    var claims := ForTierLoop(s, tier);
    ghost var js := TierJudgements(claims, ev, cfg, now);
    var results: seq<ClaimResult>;
    if TierGated(ev) {
      results := ClearAll(claims, StatusUnknown, damper, now, js);
      NothingRaised(results, js, old(damper.onset));
      return Ok(TierResult(results, population, delivery));
    }
    if IsSettling(ev.appliedAt, cfg.SettleSelf(), now) {
      results := ClearAll(claims, Pending, damper, now, js);
      NothingRaised(results, js, old(damper.onset));
      return Ok(TierResult(results, population, delivery));
    }
    var raised: seq<Raised>;
    results, raised := JudgeTierClaims(claims, ev, damper, cfg, now);
    return Ok(TierResult(results, population, delivery + raised));
  }

  lemma {:induction false} NothingRaised(results: seq<ClaimResult>, js: seq<Judgement>, onset: map<string, int>)
    requires |results| == |js|
    requires forall i :: 0 <= i < |results| ==> results[i].status == StatusOf(Play(onset, js[..i]), js[i]) && !js[i].evidence.Silent?
    ensures Violations(results) == []
  {
    if results != [] {
      var n := |results| - 1;
      forall i | 0 <= i < n ensures js[..n][..i] == js[..i] {}
      NothingRaised(results[..n], js[..n], onset);
    }
  }

  // ---- runs --------------------------------------------------------------

  /** Starts the clocks of claims whose shortfall is known to have begun
      earlier. A zero instant seeds nothing, and a running clock is kept. */
  method SeedDamper(damper: Damper, keys: seq<string>, since: Option<int>)
    modifies damper
    ensures since.None? ==> damper.onset == old(damper.onset)
    ensures since.Some? ==> damper.onset.Keys == old(damper.onset.Keys) + (set k | k in keys)
    ensures since.Some? ==> forall k :: k in damper.onset ==>
      damper.onset[k] == if k in old(damper.onset) then old(damper.onset)[k] else since.value
  {
    if since.None? { return; }
    for i := 0 to |keys|
      invariant damper.onset.Keys == old(damper.onset.Keys) + (set k | k in keys[..i])
      invariant forall k :: k in damper.onset ==>
        damper.onset[k] == if k in old(damper.onset) then old(damper.onset)[k] else since.value
    {
      assert keys[..i + 1] == keys[..i] + [keys[i]];
      var _ := damper.Observe(keys[i], 0, CLAIM_FLOOR, since.value);
    }
    assert keys[..|keys|] == keys;
  }

  /** One call an evaluator makes on the shared clock. */
  datatype Call =
    | RowCall(claims: Set, service: string, environment: string, library: seq<Demand>, row: RowEvidence, cfg: Config, now: int)
    | TierCall(claims: Set, tier: string, evidence: TierEvidence, cfg: Config, now: int)

  /** What a call asks of the clock, claim by claim. */
  ghost function Asked(call: Call): seq<Judgement> {
    match call
    case RowCall(s, service, environment, _, ev, cfg, now) => RowJudgements(ForRow(s.claims, service, environment), ev, cfg, now)
    case TierCall(s, tier, ev, cfg, now) =>
      if Mismatched(s, ev) then [] else TierJudgements(ForTier(s.claims, tier), ev, cfg, now)
  }

  ghost function AskedAll(calls: seq<Call>): seq<Judgement> {
    if calls == [] then [] else AskedAll(calls[..|calls| - 1]) + Asked(calls[|calls| - 1])
  }

  lemma {:induction false} PlayAppend(onset: map<string, int>, a: seq<Judgement>, b: seq<Judgement>)
    ensures Play(onset, a + b) == Play(Play(onset, a), b)
  {
    if b == [] {
      assert a + b == a;
    } else {
      var n := |b| - 1;
      assert (a + b)[..|a + b| - 1] == a + b[..n];
      PlayAppend(onset, a, b[..n]);
    }
  }

  /** The claims a call judges, in the set's order. */
  ghost function ClaimsOf(call: Call): seq<Claim> {
    match call
    case RowCall(s, service, environment, _, _, _, _) => ForRow(s.claims, service, environment)
    case TierCall(s, tier, ev, _, _) => if Mismatched(s, ev) then [] else ForTier(s.claims, tier)
  }

  ghost function ClaimsAsked(calls: seq<Call>): seq<Claim> {
    if calls == [] then [] else ClaimsAsked(calls[..|calls| - 1]) + ClaimsOf(calls[|calls| - 1])
  }

  lemma AnswersAppend(before: seq<ClaimResult>, more: seq<ClaimResult>, asked: seq<Claim>, claims: seq<Claim>,
                      a: seq<Judgement>, b: seq<Judgement>, onset: map<string, int>)
    requires ResultsOf(before, asked, a, onset) && ResultsOf(more, claims, b, Play(onset, a))
    ensures ResultsOf(before + more, asked + claims, a + b, onset)
    ensures Play(onset, a + b) == Play(Play(onset, a), b)
  {
    hide Play, IsResult;
    PlayAppend(onset, a, b);
    forall i | 0 <= i < |a + b|
      ensures IsResult((before + more)[i], (asked + claims)[i], (a + b)[i], Play(onset, (a + b)[..i]))
    {
      if i < |a| {
        assert (a + b)[..i] == a[..i];
        assert IsResult(before[i], asked[i], a[i], Play(onset, a[..i]));
      } else {
        assert (a + b)[..i] == a + b[..i - |a|];
        PlayAppend(onset, a, b[..i - |a|]);
        assert IsResult(more[i - |a|], claims[i - |a|], b[i - |a|], Play(Play(onset, a), b[..i - |a|]));
      }
    }
  }

  /** A run of calls, in any mix, over one clock: every answer is the one the
      clock gives after all that was asked before it. */
  method Run(calls: seq<Call>, damper: Damper) returns (results: seq<ClaimResult>)
    modifies damper
    ensures damper.onset == Play(old(damper.onset), AskedAll(calls))
    ensures ResultsOf(results, ClaimsAsked(calls), AskedAll(calls), old(damper.onset))
  {
    hide Play, ForRow, ForTier, RowJudgements, TierJudgements, IsResult, Advisories, Violations;
    results := [];
    assert Play(damper.onset, []) == damper.onset by { PlayNothing(damper.onset); }
    NoResults(damper.onset);
    for i := 0 to |calls|
      invariant damper.onset == Play(old(damper.onset), AskedAll(calls[..i]))
      invariant ResultsOf(results, ClaimsAsked(calls[..i]), AskedAll(calls[..i]), old(damper.onset))
    {
      assert calls[..i + 1][..i] == calls[..i];
      ghost var asked, claims := AskedAll(calls[..i]), ClaimsAsked(calls[..i]);
      match calls[i] {
        case RowCall(s, service, environment, library, ev, cfg, now) =>
          var more, raised := EvaluateRow(s, service, environment, library, ev, damper, cfg, now);
          AnswersAppend(results, more, claims, ForRow(s.claims, service, environment), asked, Asked(calls[i]), old(damper.onset));
          results := results + more;
        case TierCall(s, tier, ev, cfg, now) =>
          var out := EvaluateTier(s, tier, ev, damper, cfg, now);
          if out.Ok? {
            AnswersAppend(results, out.value.results, claims, ForTier(s.claims, tier), asked, Asked(calls[i]), old(damper.onset));
            results := results + out.value.results;
          } else {
            assert AskedAll(calls[..i + 1]) == asked && ClaimsAsked(calls[..i + 1]) == claims;
          }
      }
    }
    assert calls[..|calls|] == calls;
  }

  lemma PlayNothing(onset: map<string, int>)
    ensures Play(onset, []) == onset
  {
  }

  ghost predicate GraceIsDuration(calls: seq<Call>) {
    forall c :: c in calls ==> IsDuration(c.cfg.grace)
  }

  lemma {:induction false} EveryGraceIsPositive(calls: seq<Call>, i: nat)
    requires GraceIsDuration(calls) && i < |AskedAll(calls)|
    ensures 0 < AskedAll(calls)[i].grace && IsDuration(AskedAll(calls)[i].grace)
  {
    hide DataEvidence, TierGated, Heard;
    var n := |calls| - 1;
    if i < |AskedAll(calls[..n])| { EveryGraceIsPositive(calls[..n], i); }
  }

  /** Red over a whole run of evaluator calls: exactly when every evaluation
      of that claim for at least its grace window was a known, settled,
      ungated, unmet one, however the calls for other rows and Tiers were
      mixed in between. */
  lemma RunRedExactly(calls: seq<Call>, onset: map<string, int>, i: nat)
    requires GraceIsDuration(calls) && Forward(onset, AskedAll(calls)) && i < |AskedAll(calls)|
    ensures var js := AskedAll(calls);
            var j := js[i];
            StatusOf(Play(onset, js[..i]), j).Red? <==>
              || (exists k :: 0 <= k <= i && js[k].key == j.key && SilentFrom(js, k, i + 1, j.key) && j.now - js[k].now >= j.grace)
              || (j.key in onset && SilentFrom(js, 0, i + 1, j.key) && j.now - onset[j.key] >= j.grace)
  {
    EveryGraceIsPositive(calls, i);
    RedExactly(onset, AskedAll(calls), i);
  }
}
