/** What a run of evaluations answers, over the readings it was given: when a
    claim is green, pending, unknown or red, said of the instants, the windows
    and the telemetry alone. */
module ClaimMeaning {
  import opened Base
  import opened Verdicts
  import opened Expectation
  import Staleness
  import opened Dampening
  import opened Population
  import opened ClaimJudgement

  /** One evaluation of one claim. */
  datatype Ask = Ask(call: Call, claim: Claim)

  // ---- the windows ---------------------------------------------------------

  /** Half an hour for landed data, half a minute for self-telemetry, unless
      configured. */
  ghost function SettleWindow(c: Claim, cfg: Config): int {
    match c
    case Arrival(_, _, _, _, _) => if cfg.settleArrival > 0 then cfg.settleArrival else 1_800_000_000_000
    case Enrichment(_, _, _, _, _, _, _) => if cfg.settleEnrichment > 0 then cfg.settleEnrichment else 1_800_000_000_000
    case SelfTelemetry(_, _, _, _, _) => if cfg.settleSelf > 0 then cfg.settleSelf else 30_000_000_000
  }

  /** Five minutes unless configured. */
  ghost function GraceWindow(cfg: Config): int {
    if cfg.grace > 0 then cfg.grace else 300_000_000_000
  }

  ghost predicate Durations(cfg: Config) {
    Staleness.IsDuration(cfg.settleArrival) && Staleness.IsDuration(cfg.settleEnrichment) && Staleness.IsDuration(cfg.settleSelf) && Staleness.IsDuration(cfg.grace)
  }

  ghost function AppliedAt(call: Call): Option<int> {
    if call.RowCall? then call.row.appliedAt else call.evidence.appliedAt
  }

  /** There was an APPLIED instant and it is less than the settle window old. */
  ghost predicate TooSoon(ask: Ask) {
    && AppliedAt(ask.call).Some?
    && ask.call.now - AppliedAt(ask.call).value < SettleWindow(ask.claim, ask.call.cfg)
  }

  lemma TooSoonIs(ask: Ask)
    requires Durations(ask.call.cfg)
    ensures IsSettling(AppliedAt(ask.call), ask.call.cfg.SettleFor(ask.claim), ask.call.now) <==> TooSoon(ask)
  {
  }

  // ---- a row's readings ----------------------------------------------------

  ghost predicate SignalKnown(c: Claim, row: RowEvidence)
    requires !c.SelfTelemetry?
  {
    c.signal in row.observed && row.observed[c.signal].known
  }

  /** An arrival is met by the signal being present, and an enrichment by any
      landed record carrying the attribute. */
  ghost predicate RowMet(c: Claim, row: RowEvidence)
    requires !c.SelfTelemetry? && SignalKnown(c, row)
  {
    row.observed[c.signal].present &&
    (c.Enrichment? ==> c.attribute in row.observed[c.signal].coverage && row.observed[c.signal].coverage[c.attribute] > 0.0)
  }

  /** An arrival is unmet by nothing landing, and an enrichment only by
      something landing, measured, of which nothing carries the attribute. */
  ghost predicate RowUnmet(c: Claim, row: RowEvidence)
    requires !c.SelfTelemetry? && SignalKnown(c, row)
  {
    match c
    case Arrival(_, _, _, signal, _) => !row.observed[signal].present
    case Enrichment(_, _, _, signal, attribute, _, _) =>
      && row.observed[signal].present
      && attribute in row.observed[signal].coverage && row.observed[signal].coverage[attribute] <= 0.0
  }

  // ---- a Tier's readings ---------------------------------------------------

  /** The legacy attributes name a component each, the first of them that is
      there; without any, the scope attributes do, unless they name a node of
      the graph or drop the id. */
  ghost predicate Names(attrs: map<string, string>, kind: string, id: string) {
    || (kind == "receiver" && "receiver" in attrs && attrs["receiver"] == id)
    || (kind == "processor" && "receiver" !in attrs && "processor" in attrs && attrs["processor"] == id)
    || (kind == "exporter" && "receiver" !in attrs && "processor" !in attrs && "exporter" in attrs && attrs["exporter"] == id)
    || (ScopedTo(attrs, kind) && "otelcol.component.id" in attrs && attrs["otelcol.component.id"] == id && id != "")
  }

  ghost predicate ScopedTo(attrs: map<string, string>, kind: string) {
    && "receiver" !in attrs && "processor" !in attrs && "exporter" !in attrs
    && "otelcol.component.kind" in attrs && attrs["otelcol.component.kind"] == kind
    && kind != "capabilities" && kind != "fanout"
  }

  ghost predicate NamesKindAlone(attrs: map<string, string>, kind: string) {
    ScopedTo(attrs, kind) && ("otelcol.component.id" in attrs ==> attrs["otelcol.component.id"] == "")
  }

  lemma NamesAre(attrs: map<string, string>, kind: string, id: string)
    ensures Normalise(attrs) == OfComponent(kind, id) <==> Names(attrs, kind, id)
    ensures Normalise(attrs) == OfKind(kind) <==> NamesKindAlone(attrs, kind)
  {
  }

  /** A known logs or metrics reading carries this attribute combination. */
  ghost predicate Carries(self: map<Signal, SelfSignal>, attrs: map<string, string>) {
    exists k :: (k == Logs || k == Metrics) && k in self && self[k].known && attrs in self[k].components
  }

  /** Something reports the component, or its kind alone where the claim expects
      the id to be dropped. */
  ghost predicate SomethingReports(c: Claim, self: map<Signal, SelfSignal>)
    requires c.SelfTelemetry?
  {
    exists attrs :: Carries(self, attrs) &&
      (Names(attrs, c.componentKind, c.component) || (c.shape.Unidentified? && NamesKindAlone(attrs, c.componentKind)))
  }

  lemma ReportedIs(self: map<Signal, SelfSignal>, r: ComponentReading)
    ensures Reported(self, r) <==> exists attrs :: Carries(self, attrs) && Normalise(attrs) == r
  {
    hide Normalise;
    assert forall k :: k in SELF_SIGNALS <==> k == Logs || k == Metrics;
    if k, a :| k in SELF_SIGNALS && k in self && self[k].known && a in self[k].components && Normalise(a) == r {
      assert Carries(self, a);
    }
  }

  lemma HeardIs(c: Claim, self: map<Signal, SelfSignal>)
    requires c.SelfTelemetry?
    ensures Heard(c, self) <==> SomethingReports(c, self)
  {
    ReportedIs(self, OfComponent(c.componentKind, c.component));
    ReportedIs(self, OfKind(c.componentKind));
    forall attrs
      ensures Normalise(attrs) == OfComponent(c.componentKind, c.component) <==> Names(attrs, c.componentKind, c.component)
      ensures Normalise(attrs) == OfKind(c.componentKind) <==> NamesKindAlone(attrs, c.componentKind)
    {
      NamesAre(attrs, c.componentKind, c.component);
    }
    hide Normalise, Names, NamesKindAlone, Carries, Reported;
  }

  /** The artefact in force is known, something runs, and somebody can see its
      self-telemetry. */
  ghost predicate TierReadable(ev: TierEvidence) {
    && ev.runningSHA != "" && ev.population.seen != 0
    && exists k :: (k == Logs || k == Metrics) && k in ev.self && ev.self[k].known
  }

  lemma GatedIs(ev: TierEvidence)
    ensures TierGated(ev) <==> !TierReadable(ev)
  {
    assert forall k :: k in SELF_SIGNALS <==> k == Logs || k == Metrics;
  }

  // ---- one evaluation ------------------------------------------------------

  /** The call judges the claim: a row's call its data claims, a Tier's call its
      pipeline claims unless they derive from another artefact than it runs. */
  ghost predicate Judges(call: Call, c: Claim) {
    match call
    case RowCall(_, service, environment, _, _, _, _) => !c.SelfTelemetry? && c.service == service && c.environment == environment
    case TierCall(s, tier, ev, _, _) => (ev.runningSHA == "" || ev.runningSHA == s.sha) && c.SelfTelemetry? && c.tier == tier
  }

  ghost predicate Met(ask: Ask)
    requires Judges(ask.call, ask.claim)
  {
    match ask.call
    case RowCall(_, _, _, _, row, _, _) => !TooSoon(ask) && SignalKnown(ask.claim, row) && RowMet(ask.claim, row)
    case TierCall(_, _, ev, _, _) => TierReadable(ev) && !TooSoon(ask) && SomethingReports(ask.claim, ev.self)
  }

  ghost predicate Unmet(ask: Ask)
    requires Judges(ask.call, ask.claim)
  {
    match ask.call
    case RowCall(_, _, _, _, row, _, _) => !TooSoon(ask) && SignalKnown(ask.claim, row) && RowUnmet(ask.claim, row)
    case TierCall(_, _, ev, _, _) => TierReadable(ev) && !TooSoon(ask) && !SomethingReports(ask.claim, ev.self)
  }

  /** Held back by the settle window; a Tier nobody can read is not. */
  ghost predicate Held(ask: Ask)
    requires Judges(ask.call, ask.claim)
  {
    TooSoon(ask) && (ask.call.TierCall? ==> TierReadable(ask.call.evidence))
  }

  /** The judgement the model makes of an ask is the one its readings give. */
  ghost predicate Fits(j: Judgement, ask: Ask)
    requires Judges(ask.call, ask.claim)
  {
    && j.key == Key(ask.claim) && j.now == ask.call.now && j.grace == GraceWindow(ask.call.cfg)
    && (j.evidence.Silent? <==> Unmet(ask))
    && (j.evidence.Met? <==> Met(ask))
    && (j.evidence.Settling? <==> Held(ask))
  }

  lemma RowFits(ask: Ask)
    requires ask.call.RowCall? && Judges(ask.call, ask.claim) && Durations(ask.call.cfg)
    ensures Fits(DataJudgement(ask.claim, ask.call.row, ask.call.cfg, ask.call.now), ask)
  {
    TooSoonIs(ask);
    hide IsSettling, TooSoon, Key;
  }

  lemma TierFits(ask: Ask)
    requires ask.call.TierCall? && Judges(ask.call, ask.claim) && Durations(ask.call.cfg)
    ensures Fits(TierJudgement(ask.claim, ask.call.evidence, ask.call.cfg, ask.call.now), ask)
  {
    TooSoonIs(ask);
    GatedIs(ask.call.evidence);
    HeardIs(ask.claim, ask.call.evidence.self);
    hide IsSettling, TooSoon, Key, TierGated, TierReadable, Heard, SomethingReports;
  }

  // ---- the evaluations of a run --------------------------------------------

  ghost function AsksAmong(call: Call, claims: seq<Claim>): (r: seq<Ask>)
    ensures forall a :: a in r ==> a.call == call && Judges(call, a.claim)
  {
    if claims == [] then []
    else
      var c := claims[|claims| - 1];
      AsksAmong(call, claims[..|claims| - 1]) + if Judges(call, c) then [Ask(call, c)] else []
  }

  /** Every claim each call judges, call by call, in the set's order. */
  ghost function Asks(calls: seq<Call>): (r: seq<Ask>)
    ensures forall a :: a in r ==> a.call in calls && Judges(a.call, a.claim)
  {
    if calls == [] then []
    else
      var n := |calls| - 1;
      assert calls == calls[..n] + [calls[n]];
      Asks(calls[..n]) + AsksAmong(calls[n], calls[n].claims.claims)
  }

  /** The claims and judgements are those of the asks, one by one. */
  ghost predicate AllFit(claims: seq<Claim>, js: seq<Judgement>, asks: seq<Ask>) {
    && |claims| == |js| == |asks|
    && forall i :: 0 <= i < |asks| ==> Judges(asks[i].call, asks[i].claim) && claims[i] == asks[i].claim && Fits(js[i], asks[i])
  }

  lemma {:induction false} RowAsks(call: Call, claims: seq<Claim>)
    requires call.RowCall?
    ensures var found := ForRow(claims, call.service, call.environment);
            |AsksAmong(call, claims)| == |found| && forall i :: 0 <= i < |found| ==> AsksAmong(call, claims)[i] == Ask(call, found[i])
  {
    if claims != [] { RowAsks(call, claims[..|claims| - 1]); }
  }

  lemma {:induction false} TierAsks(call: Call, claims: seq<Claim>)
    requires call.TierCall? && !Mismatched(call.claims, call.evidence)
    ensures var found := ForTier(claims, call.tier);
            |AsksAmong(call, claims)| == |found| && forall i :: 0 <= i < |found| ==> AsksAmong(call, claims)[i] == Ask(call, found[i])
  {
    if claims != [] { TierAsks(call, claims[..|claims| - 1]); }
  }

  lemma {:induction false} RefusedAsks(call: Call, claims: seq<Claim>)
    requires call.TierCall? && Mismatched(call.claims, call.evidence)
    ensures AsksAmong(call, claims) == []
  {
    if claims != [] { RefusedAsks(call, claims[..|claims| - 1]); }
  }

  lemma CallFits(call: Call)
    requires Durations(call.cfg)
    ensures AllFit(ClaimsOf(call), Asked(call), AsksAmong(call, call.claims.claims))
  {
    var asks := AsksAmong(call, call.claims.claims);
    hide Fits, DataJudgement, TierJudgement, ForRow, ForTier, AsksAmong;
    assert forall i :: 0 <= i < |asks| ==> asks[i] in asks;
    match call
    case RowCall(s, service, environment, _, ev, cfg, now) =>
      RowAsks(call, s.claims);
      forall i | 0 <= i < |asks| ensures Fits(Asked(call)[i], asks[i]) { RowFits(asks[i]); }
    case TierCall(s, tier, ev, cfg, now) =>
      if Mismatched(s, ev) {
        RefusedAsks(call, s.claims);
      } else {
        TierAsks(call, s.claims);
        forall i | 0 <= i < |asks| ensures Fits(Asked(call)[i], asks[i]) { TierFits(asks[i]); }
      }
  }

  lemma {:induction false} RunFits(calls: seq<Call>)
    requires forall c :: c in calls ==> Durations(c.cfg)
    ensures AllFit(ClaimsAsked(calls), AskedAll(calls), Asks(calls))
  {
    hide Fits, Durations, Asked, ClaimsOf, AsksAmong, Judges;
    if calls != [] {
      var n := |calls| - 1;
      assert calls[n] in calls;
      RunFits(calls[..n]);
      CallFits(calls[n]);
    }
  }

  /** Calls run forward in time, after whatever the clock already held. */
  ghost predicate InOrder(onset: map<string, int>, calls: seq<Call>) {
    && (forall i, j :: 0 <= i < j < |calls| ==> calls[i].now <= calls[j].now)
    && (forall k, i :: k in onset && 0 <= i < |calls| ==> onset[k] <= calls[i].now)
  }

  lemma {:induction false} AsksInOrder(onset: map<string, int>, calls: seq<Call>)
    requires InOrder(onset, calls)
    ensures forall i, j :: 0 <= i < j < |Asks(calls)| ==> Asks(calls)[i].call.now <= Asks(calls)[j].call.now
    ensures forall k, i :: k in onset && 0 <= i < |Asks(calls)| ==> onset[k] <= Asks(calls)[i].call.now
  {
    hide Judges, AsksAmong;
    if calls != [] {
      var n := |calls| - 1;
      var before, now := Asks(calls[..n]), AsksAmong(calls[n], calls[n].claims.claims);
      AsksInOrder(onset, calls[..n]);
      forall i | 0 <= i < |before| ensures before[i].call.now <= calls[n].now {
        assert before[i] in before;
      }
      forall i | 0 <= i < |now| ensures now[i].call == calls[n] { assert now[i] in now; }
    }
  }

  /** Every evaluation of the claim at `i`, from `k` on, found it unmet. */
  ghost predicate UnmetFrom(asks: seq<Ask>, k: nat, i: nat)
    requires i < |asks| && forall a :: a in asks ==> Judges(a.call, a.claim)
  {
    forall m :: k <= m <= i && Key(asks[m].claim) == Key(asks[i].claim) ==> Unmet(asks[m])
  }

  /** Unmet without a break back a whole grace window: to an earlier evaluation
      of the claim, or to the instant its clock was seeded with. */
  ghost predicate LongUnmet(onset: map<string, int>, asks: seq<Ask>, i: nat)
    requires i < |asks| && forall a :: a in asks ==> Judges(a.call, a.claim)
  {
    var key, now, grace := Key(asks[i].claim), asks[i].call.now, GraceWindow(asks[i].call.cfg);
    || (exists k :: 0 <= k <= i && Key(asks[k].claim) == key && UnmetFrom(asks, k, i) && now - asks[k].call.now >= grace)
    || (key in onset && UnmetFrom(asks, 0, i) && now - onset[key] >= grace)
  }

  lemma SilentIsUnmet(claims: seq<Claim>, js: seq<Judgement>, asks: seq<Ask>, k: nat, i: nat)
    requires AllFit(claims, js, asks) && k <= i < |asks|
    requires forall a :: a in asks ==> Judges(a.call, a.claim)
    ensures SilentFrom(js, k, i + 1, js[i].key) <==> UnmetFrom(asks, k, i)
  {
    hide Key, Unmet, Met, Held, Judges;
    assert js[i].key == Key(asks[i].claim);
    if SilentFrom(js, k, i + 1, js[i].key) {
      forall m | k <= m <= i && Key(asks[m].claim) == Key(asks[i].claim) ensures Unmet(asks[m]) {
        assert Fits(js[m], asks[m]);
      }
    }
    if UnmetFrom(asks, k, i) {
      forall m | k <= m < i + 1 && js[m].key == js[i].key ensures js[m].evidence.Silent? {
        assert Fits(js[m], asks[m]);
      }
    }
  }

  lemma LongUnmetIs(onset: map<string, int>, claims: seq<Claim>, js: seq<Judgement>, asks: seq<Ask>, i: nat)
    requires AllFit(claims, js, asks) && Forward(onset, js) && i < |js|
    requires forall a :: a in asks ==> Judges(a.call, a.claim)
    requires 0 < js[i].grace && Staleness.IsDuration(js[i].grace)
    ensures StatusOf(Play(onset, js[..i]), js[i]).Red? <==> LongUnmet(onset, asks, i)
  {
    hide Play, StatusOf, Judges, Key, Unmet, Met, Held;
    RedExactly(onset, js, i);
    forall k | 0 <= k <= i ensures SilentFrom(js, k, i + 1, js[i].key) <==> UnmetFrom(asks, k, i) {
      SilentIsUnmet(claims, js, asks, k, i);
    }
    assert forall k :: 0 <= k < |asks| ==> js[k].key == Key(asks[k].claim) && js[k].now == asks[k].call.now by {
      forall k | 0 <= k < |asks| ensures js[k].key == Key(asks[k].claim) && js[k].now == asks[k].call.now { assert Fits(js[k], asks[k]); }
    }
    hide SilentFrom, UnmetFrom, Fits;
  }

  lemma RunIsForward(calls: seq<Call>, onset: map<string, int>)
    requires (forall c :: c in calls ==> Durations(c.cfg)) && InOrder(onset, calls)
    ensures AllFit(ClaimsAsked(calls), AskedAll(calls), Asks(calls)) && Forward(onset, AskedAll(calls))
  {
    var asks, js := Asks(calls), AskedAll(calls);
    RunFits(calls);
    AsksInOrder(onset, calls);
    forall k | 0 <= k < |js| ensures js[k].now == asks[k].call.now { assert Fits(js[k], asks[k]); }
    hide Fits, Judges, Asks, AskedAll, ClaimsAsked;
  }

  /** What one answer says, given when the clock makes it red. */
  lemma AnswerIs(r: ClaimResult, j: Judgement, ask: Ask, onset: map<string, int>, long: bool)
    requires Judges(ask.call, ask.claim) && Fits(j, ask) && IsResult(r, ask.claim, j, onset)
    requires StatusOf(onset, j).Red? <==> long
    ensures r.claim == ask.claim
    ensures r.status.Red? <==> long
    ensures r.status.Green? <==> Met(ask)
    ensures r.status.Pending? <==> Held(ask) || (Unmet(ask) && !long)
    ensures r.since.Some? <==> Unmet(ask)
  {
    hide Met, Unmet, Held, Judges, Key;
  }

  /** Over any run of evaluator calls on one clock, each claim judged is red
      exactly when every evaluation of it back a whole grace window found a
      readable, settled, unmet reading; green exactly when its readings meet
      it; pending exactly inside the settle window or with an unmet reading not
      yet that old; and otherwise unknown. */
  lemma RunOverReadings(calls: seq<Call>, onset: map<string, int>, results: seq<ClaimResult>, i: nat)
    requires (forall c :: c in calls ==> Durations(c.cfg)) && InOrder(onset, calls)
    requires ResultsOf(results, ClaimsAsked(calls), AskedAll(calls), onset) && i < |results|
    ensures |results| == |Asks(calls)| && results[i].claim == Asks(calls)[i].claim
    ensures results[i].status.Red? <==> LongUnmet(onset, Asks(calls), i)
    ensures results[i].status.Green? <==> Met(Asks(calls)[i])
    ensures results[i].status.Pending? <==> Held(Asks(calls)[i]) || (Unmet(Asks(calls)[i]) && !LongUnmet(onset, Asks(calls), i))
    ensures results[i].since.Some? <==> Unmet(Asks(calls)[i])
  {
    hide Play, LongUnmet, Met, Unmet, Held, Asks, AskedAll, ClaimsAsked, Judges, Forward, Fits, IsResult;
    var claims, js, asks := ClaimsAsked(calls), AskedAll(calls), Asks(calls);
    RunIsForward(calls, onset);
    assert asks[i] in asks && Durations(asks[i].call.cfg);
    assert Fits(js[i], asks[i]) && 0 < js[i].grace && Staleness.IsDuration(js[i].grace) by { GraceFits(js[i], asks[i]); }
    LongUnmetIs(onset, claims, js, asks, i);
    AnswerIs(results[i], js[i], asks[i], Play(onset, js[..i]), LongUnmet(onset, asks, i));
  }

  lemma GraceFits(j: Judgement, ask: Ask)
    requires Judges(ask.call, ask.claim) && Fits(j, ask) && Durations(ask.call.cfg)
    ensures 0 < j.grace && Staleness.IsDuration(j.grace)
  {
  }

  // ---- what a red raises ---------------------------------------------------

  /** A Requirement that applies in the claim's Environment asserts its signal
      and, for an enrichment, requires its attribute. */
  ghost predicate AskedFor(c: Claim, library: seq<Demand>)
    requires !c.SelfTelemetry?
  {
    exists d :: d in library && d.signal.Some?
      && (d.environments == [] || c.environment in d.environments)
      && d.signal.value.kind == c.signal
      && (c.Enrichment? ==> c.attribute in d.signal.value.requiredAttributes)
  }

  lemma BackedIsAskedFor(c: Claim, library: seq<Demand>)
    requires !c.SelfTelemetry?
    ensures Backed(c, library) <==> AskedFor(c, library)
  {
    if d :| d in library && DemandedBy(c, d) { assert AskedFor(c, library); }
    if AskedFor(c, library) {
      var d :| d in library && d.signal.Some? && (d.environments == [] || c.environment in d.environments)
        && d.signal.value.kind == c.signal && (c.Enrichment? ==> c.attribute in d.signal.value.requiredAttributes);
      assert DemandedBy(c, d);
    }
  }

  ghost predicate RedUnasked(r: ClaimResult, library: seq<Demand>) {
    r.status == Red && !r.claim.SelfTelemetry? && !AskedFor(r.claim, library)
  }

  /** A row raises one advisory for each red claim nobody asked for, on its
      Service, in the claims' order, and nothing else. */
  lemma {:induction false} RowRaises(results: seq<ClaimResult>, library: seq<Demand>)
    requires forall r :: r in results ==> !r.claim.SelfTelemetry? && r.backed == Backed(r.claim, library)
    ensures var red := Filter(r => RedUnasked(r, library), results);
      && |Advisories(results)| == |red|
      && forall i :: 0 <= i < |red| ==> Advisories(results)[i] == AdvisoryOn(red[i].claim.service, Key(red[i].claim))
  {
    hide Key, Backed, AskedFor;
    if results != [] {
      var n := |results| - 1;
      assert results == results[..n] + [results[n]];
      FilterAppend(r => RedUnasked(r, library), results[..n], [results[n]]);
      RowRaises(results[..n], library);
      BackedIsAskedFor(results[n].claim, library);
    }
  }

  /** A Tier raises one violation for each red claim, in the claims' order. */
  lemma {:induction false} TierRaises(results: seq<ClaimResult>)
    requires forall r :: r in results ==> r.claim.SelfTelemetry?
    ensures var red := Filter((r: ClaimResult) => r.status == Red, results);
      && |Violations(results)| == |red|
      && forall i :: 0 <= i < |red| ==> Violations(results)[i] == ViolationOn(red[i].claim.tier, Key(red[i].claim))
  {
    hide Key;
    if results != [] {
      var n := |results| - 1;
      assert results == results[..n] + [results[n]];
      FilterAppend((r: ClaimResult) => r.status == Red, results[..n], [results[n]]);
      TierRaises(results[..n]);
    }
  }
}
