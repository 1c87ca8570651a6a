/** What a derived set claims, stated over the authored trees, and the memo in
    front of the derivation (internal/expectation/derive.go, memo.go). */
module ClaimExactness {
  import opened Base
  import opened Verdicts
  import opened Topologies
  import opened Blueprints
  import opened Expectation
  import opened ClaimDerivation

  // ---- the set is keyed and merged ---------------------------------------

  lemma {:induction false} PipelineClaimsAre(src: Source, tier: Tier, comps: seq<Component>, c: Claim)
    ensures c in PipelineClaims(src, tier, comps) <==>
      exists m :: m in comps && ComponentKind(m.class_).Some?
        && c == SelfTelemetry(src.sha, tier.id, ComponentKind(m.class_).value, RenderedID(m), ShapeOf(m))
  {
    hide RenderedID, ShapeOf;
    if comps != [] {
      var n := |comps| - 1;
      assert comps == comps[..n] + [comps[n]];
      PipelineClaimsAre(src, tier, comps[..n], c);
      assert comps[n] in comps;
    }
  }

  lemma {:induction false} PipelineStreamIsPipeline(src: Source, ids: seq<string>, c: Claim)
    requires forall id :: id in ids ==> id in src.topology.tiers
    requires c in PipelineStream(src, ids)
    ensures c.SelfTelemetry?
  {
    hide Instantiated;
    var n := |ids| - 1;
    if c in PipelineStream(src, ids[..n]) {
      PipelineStreamIsPipeline(src, ids[..n], c);
    } else {
      var tier := src.topology.tiers[ids[n]];
      PipelineClaimsAre(src, tier, Instantiated(src.shared, src.blueprints[tier.binding]), c);
    }
  }

  lemma {:induction false} InsertionClaimsAre(src: Source, service: string, tier: Tier, signal: Signal, inserts: seq<Insertion>, c: Claim)
    ensures c in InsertionClaims(src, service, tier, signal, inserts) <==>
      exists i :: i in inserts && c == Enrichment(src.sha, service, tier.environment, signal, i.key, i.value, [tier.id])
  {
    if inserts != [] {
      var n := |inserts| - 1;
      assert inserts == inserts[..n] + [inserts[n]];
      InsertionClaimsAre(src, service, tier, signal, inserts[..n], c);
      assert inserts[n] in inserts;
    }
  }

  lemma {:induction false} EntryClaimsAre(src: Source, service: string, tier: Tier, b: Blueprint, signal: Signal,
                                          refs: seq<ClaimDerivation.References.Reference>, c: Claim)
    ensures c in EntryClaims(src, service, tier, b, signal, refs) <==>
      exists r, i :: r in refs && i in Inserts(src, b, r, signal)
        && c == Enrichment(src.sha, service, tier.environment, signal, i.key, i.value, [tier.id])
  {
    hide Inserts;
    if refs != [] {
      var n := |refs| - 1;
      assert refs == refs[..n] + [refs[n]];
      EntryClaimsAre(src, service, tier, b, signal, refs[..n], c);
      InsertionClaimsAre(src, service, tier, signal, Inserts(src, b, refs[n], signal), c);
      assert refs[n] in refs;
    }
  }

  /** The lane that carries a signal. */
  function LaneFor(signal: Signal): Lane {
    match signal
    case Traces => TracesLane
    case Metrics => MetricsLane
    case Logs => LogsLane
  }

  /** The Blueprint states this claim for the Service through the Tier. */
  ghost predicate States(src: Source, service: string, tier: Tier, b: Blueprint, c: Claim) {
    && !c.SelfTelemetry?
    && c.sha == src.sha && c.service == service && c.environment == tier.environment && c.tiers == [tier.id]
    && Entries(b, LaneFor(c.signal)) != []
    && (c.Enrichment? ==> Inserted(src, b, c.signal, Insertion(c.attribute, c.value)))
  }

  /** Some entry of the signal's lane is a processor that literally writes
      this. */
  ghost predicate Inserted(src: Source, b: Blueprint, signal: Signal, i: Insertion) {
    exists r :: r in Entries(b, LaneFor(signal)) && i in Inserts(src, b, r, signal)
  }

  lemma LaneClaimsAre(src: Source, service: string, tier: Tier, b: Blueprint, lane: Lane, c: Claim)
    ensures c in LaneClaims(src, service, tier, b, lane) <==>
      States(src, service, tier, b, c) && LaneFor(c.signal) == lane
  {
    hide Inserts;
    if Judgeable(lane).Some? {
      EntryClaimsAre(src, service, tier, b, Judgeable(lane).value, Entries(b, lane), c);
    }
  }

  lemma LanesClaimsAre(src: Source, service: string, tier: Tier, b: Blueprint, c: Claim)
    ensures c in LanesClaims(src, service, tier, b, SIGNAL_LANES) <==> States(src, service, tier, b, c)
  {
    hide States, LaneClaims;
    forall lane { LaneClaimsAre(src, service, tier, b, lane, c); }
    assert SIGNAL_LANES[..3] == [TracesLane, MetricsLane, LogsLane];
    assert SIGNAL_LANES[..3][..2] == [TracesLane, MetricsLane];
    assert [TracesLane, MetricsLane][..1] == [TracesLane];
    assert LanesClaims(src, service, tier, b, [TracesLane]) == LaneClaims(src, service, tier, b, TracesLane);
    assert LanesClaims(src, service, tier, b, [TracesLane, MetricsLane])
        == LaneClaims(src, service, tier, b, TracesLane) + LaneClaims(src, service, tier, b, MetricsLane);
    assert LanesClaims(src, service, tier, b, SIGNAL_LANES[..3])
        == LanesClaims(src, service, tier, b, [TracesLane, MetricsLane]) + LaneClaims(src, service, tier, b, LogsLane);
    if States(src, service, tier, b, c) {
      assert c.signal == Traces || c.signal == Metrics || c.signal == Logs by { StatesIsData(src, service, tier, b, c); }
    }
  }

  lemma StatesIsData(src: Source, service: string, tier: Tier, b: Blueprint, c: Claim)
    requires States(src, service, tier, b, c)
    ensures !c.SelfTelemetry?
  {
  }

  /** Tier `id` backs the claim: a Path of the Service goes through it, and the
      Blueprint it binds, when one resolves, states it. */
  ghost predicate Backs(src: Source, service: string, id: string, c: Claim) {
    && service in src.topology.services
    && (exists p :: p in src.topology.services[service].paths && id in p)
    && StatedAt(src, service, id, c)
  }

  ghost predicate StatedAt(src: Source, service: string, id: string, c: Claim) {
    && id in src.topology.tiers
    && src.topology.tiers[id].binding in src.blueprints
    && States(src, service, src.topology.tiers[id], src.blueprints[src.topology.tiers[id].binding], c)
  }

  lemma {:induction false} ServiceClaimsAre(src: Source, service: string, ids: seq<string>, c: Claim)
    ensures c in ServiceClaims(src, service, ids) <==> exists id :: id in ids && StatedAt(src, service, id, c)
  {
    hide States, LanesClaims;
    if ids != [] {
      var n := |ids| - 1;
      assert ids == ids[..n] + [ids[n]];
      ServiceClaimsAre(src, service, ids[..n], c);
      if ids[n] in src.topology.tiers && src.topology.tiers[ids[n]].binding in src.blueprints {
        LanesClaimsAre(src, service, src.topology.tiers[ids[n]], src.blueprints[src.topology.tiers[ids[n]].binding], c);
      }
      assert ids[n] in ids;
    }
  }

  ghost predicate BackedIn(src: Source, service: string, c: Claim) {
    exists id :: Backs(src, service, id, c)
  }

  lemma ServiceStreamIs(src: Source, service: string, c: Claim)
    requires service in src.topology.services
    ensures c in ServiceClaims(src, service, TraversedTiers(src.topology.services[service])) <==> BackedIn(src, service, c)
  {
    hide StatedAt, ServiceClaims, Ascending;
    var svc := src.topology.services[service];
    ServiceClaimsAre(src, service, TraversedTiers(svc), c);
    forall id ensures id in TraversedTiers(svc) <==> exists p :: p in svc.paths && id in p {}
    if id :| id in TraversedTiers(svc) && StatedAt(src, service, id, c) { assert Backs(src, service, id, c); }
    if id :| Backs(src, service, id, c) { assert id in TraversedTiers(svc); }
  }

  lemma {:induction false} DataStreamIs(src: Source, ids: seq<string>, c: Claim)
    requires forall id :: id in ids ==> id in src.topology.services
    ensures c in DataStream(src, ids) <==> exists service :: service in ids && BackedIn(src, service, c)
  {
    hide BackedIn, ServiceClaims, TraversedTiers;
    if ids != [] {
      var n := |ids| - 1;
      assert ids == ids[..n] + [ids[n]];
      DataStreamIs(src, ids[..n], c);
      ServiceStreamIs(src, ids[n], c);
      assert ids[n] in ids;
    }
  }

  lemma BackedIsItsOwn(src: Source, service: string, c: Claim)
    requires !c.SelfTelemetry? && BackedIn(src, service, c)
    ensures service == c.service && service in src.topology.services
  {
  }

  /** The stream carries, of data claims, exactly the backed ones. */
  lemma StreamIs(src: Source, c: Claim)
    requires !c.SelfTelemetry?
    ensures c in Stream(src) <==> BackedIn(src, c.service, c)
  {
    hide PipelineStream, DataStream, States, Ascending;
    DataStreamIs(src, Ascending(src.topology.services.Keys), c);
    forall service | BackedIn(src, service, c) ensures service == c.service && service in src.topology.services {
      BackedIsItsOwn(src, service, c);
    }
    if c in PipelineStream(src, Ascending(src.topology.tiers.Keys)) {
      PipelineStreamIsPipeline(src, Ascending(src.topology.tiers.Keys), c);
    }
  }

  lemma StreamIsSingle(src: Source)
    ensures SingleTiers(Stream(src))
  {
    hide Stream;
    forall c | c in Stream(src) ensures |Tiers(c)| <= 1 {
      if !c.SelfTelemetry? { StreamIs(src, c); }
    }
  }

  /** Derivation yields strictly increasing keys, one claim for every key
      added and no other, each merged from all that shared it. */
  lemma DerivedIsKeyed(src: Source)
    ensures Increasing(KeyLess, Derive(src).claims)
    ensures forall key :: Streamed(Derive(src).claims, key) <==> Streamed(Stream(src), key)
    ensures forall c :: c in Derive(src).claims ==> Merged(Stream(src), c)
  {
    hide Key, Stream, Collected, Merged;
    var stream := Stream(src);
    var collected := Collected(stream);
    StreamIsSingle(src);
    CollectedMeans(stream);
    SortMembers(KeyLess, collected);
    KeyOrder();
    assert Distinct(collected);
    forall x, y | x in collected && y in collected && x != y ensures KeyLess(x, y) || KeyLess(y, x) {
      LessTotal(Key(x), Key(y));
    }
    SortDistinct(KeyLess, collected);
    forall key | Streamed(Derive(src).claims, key) ensures Streamed(stream, key) {
      var c :| c in Derive(src).claims && Key(c) == key;
      MergedIsStreamed(stream, c);
    }
    forall key | Streamed(stream, key) ensures Streamed(Derive(src).claims, key) {
      var c :| c in collected && Key(c) == key;
      assert c in Derive(src).claims;
    }
  }

  lemma MergedIsStreamed(stream: seq<Claim>, c: Claim)
    requires Merged(stream, c)
    ensures Streamed(stream, Key(c))
  {
  }

  lemma KeyOrder()
    ensures WeakOrder(KeyLess)
  {
    hide Key;
    StringOrder();
  }

  // ---- arrival claims, exactly -------------------------------------------

  /** Tier `id` is on a Path of the Service, is in the Environment, and binds
      a resolvable Blueprint that routes the signal. */
  ghost predicate Routes(src: Source, service: string, environment: string, signal: Signal, id: string) {
    && service in src.topology.services
    && (exists p :: p in src.topology.services[service].paths && id in p)
    && id in src.topology.tiers
    && src.topology.tiers[id].environment == environment
    && src.topology.tiers[id].binding in src.blueprints
    && var b := src.blueprints[src.topology.tiers[id].binding];
       match signal
       case Traces => b.traces != []
       case Metrics => b.metrics != []
       case Logs => b.logs != []
  }

  function ArrivalAt(src: Source, service: string, environment: string, signal: Signal, id: string): Claim {
    Arrival(src.sha, service, environment, signal, [id])
  }

  lemma ArrivalStreamed(src: Source, service: string, environment: string, signal: Signal, c: Claim)
    requires Keyed(src.topology) && c.Arrival? && c.service == service && c.environment == environment && c.signal == signal
    ensures c in Stream(src) <==> exists id :: Routes(src, service, environment, signal, id) && c == ArrivalAt(src, service, environment, signal, id)
  {
    hide Stream;
    StreamIs(src, c);
    if BackedIn(src, service, c) {
      var id :| Backs(src, service, id, c);
      assert Routes(src, service, environment, signal, id) && c == ArrivalAt(src, service, environment, signal, id);
    }
    if id :| Routes(src, service, environment, signal, id) && c == ArrivalAt(src, service, environment, signal, id) {
      assert Backs(src, service, id, c);
    }
  }

  /** Some Tier routes the signal for the row. */
  ghost predicate Routed(src: Source, service: string, environment: string, signal: Signal) {
    exists id :: Routes(src, service, environment, signal, id)
  }

  /** Some row that joins to this text is routed through the Tier. */
  ghost predicate RoutesText(src: Source, text: string, signal: Signal, id: string) {
    exists s, e :: RowText(s, e) == text && Routes(src, s, e, signal, id)
  }

  /** No other routed row of the signal joins to the same text. */
  ghost predicate Alone(src: Source, service: string, environment: string, signal: Signal) {
    forall s, e :: Routed(src, s, e, signal) && RowText(s, e) == RowText(service, environment) ==> s == service && e == environment
  }

  /** What is streamed under a row's arrival key is the arrival claim of a
      routed row that joins to the same text. */
  lemma UnderArrivalKey(src: Source, service: string, environment: string, signal: Signal, c: Claim)
    requires Keyed(src.topology) && c in Stream(src)
    requires Key(c) == Key(ArrivalAt(src, service, environment, signal, ""))
    ensures c.Arrival? && c.signal == signal
    ensures RowText(c.service, c.environment) == RowText(service, environment)
    ensures Routed(src, c.service, c.environment, signal)
    ensures forall t :: t in Tiers(c) ==> Routes(src, c.service, c.environment, signal, t)
  {
    hide Stream, Key, Routes, RowText;
    KeyTellsFamily(c, ArrivalAt(src, service, environment, signal, ""));
    ArrivalKeysEqualExactly(c, ArrivalAt(src, service, environment, signal, ""));
    ArrivalStreamed(src, c.service, c.environment, signal, c);
    var id :| Routes(src, c.service, c.environment, signal, id) && c == ArrivalAt(src, c.service, c.environment, signal, id);
  }

  lemma {:induction false} TiersUnderAre(stream: seq<Claim>, key: string, t: string)
    ensures t in TiersUnder(stream, key) <==> exists c :: c in stream && Key(c) == key && t in Tiers(c)
  {
    hide Key;
    if stream != [] {
      var n := |stream| - 1;
      assert stream == stream[..n] + [stream[n]];
      TiersUnderAre(stream[..n], key, t);
      assert stream[n] in stream;
    }
  }

  ghost predicate Claims(s: Set, service: string, environment: string, signal: Signal, c: Claim) {
    c in s.claims && c.Arrival? && c.service == service && c.environment == environment && c.signal == signal
  }

  lemma TiersUnderArrival(src: Source, service: string, environment: string, signal: Signal, t: string)
    requires Keyed(src.topology)
    ensures t in TiersUnder(Stream(src), Key(ArrivalAt(src, service, environment, signal, "")))
      <==> RoutesText(src, RowText(service, environment), signal, t)
  {
    hide Stream, Routes, TiersUnder, Key, RowText;
    var probe := ArrivalAt(src, service, environment, signal, "");
    TiersUnderAre(Stream(src), Key(probe), t);
    if t in TiersUnder(Stream(src), Key(probe)) {
      var c :| c in Stream(src) && Key(c) == Key(probe) && t in Tiers(c);
      UnderArrivalKey(src, service, environment, signal, c);
    }
    if s, e :| RowText(s, e) == RowText(service, environment) && Routes(src, s, e, signal, t) {
      var c := ArrivalAt(src, s, e, signal, t);
      ArrivalStreamed(src, s, e, signal, c);
      ArrivalKeysEqualExactly(c, probe);
    }
  }

  /** A derived claim under the row's arrival key is the arrival claim of a
      routed row with the row's text, backed by every Tier of every such row. */
  lemma DerivedUnderArrivalKey(src: Source, service: string, environment: string, signal: Signal, c: Claim)
    requires Keyed(src.topology)
    requires c in Derive(src).claims && Key(c) == Key(ArrivalAt(src, service, environment, signal, ""))
    ensures c.Arrival? && c.signal == signal
    ensures RowText(c.service, c.environment) == RowText(service, environment)
    ensures Routed(src, c.service, c.environment, signal)
    ensures Increasing(Less, c.tiers)
    ensures forall t :: t in c.tiers <==> RoutesText(src, RowText(service, environment), signal, t)
  {
    hide Stream, Derive, Key, Routed, RoutesText, RowText, Ascending, TiersUnder;
    DerivedIsKeyed(src);
    assert Merged(Stream(src), c);
    var d := FirstUnder(Stream(src), Key(c)).value;
    UnderArrivalKey(src, service, environment, signal, d);
    forall t { TiersUnderArrival(src, service, environment, signal, t); }
  }

  /** The row has its own arrival claim, backed by the sorted set of exactly
      the Tiers that route the signal for it. */
  ghost predicate HasOwnClaim(src: Source, service: string, environment: string, signal: Signal) {
    exists c :: Claims(Derive(src), service, environment, signal, c)
      && Increasing(Less, c.tiers) && forall id :: id in c.tiers <==> Routes(src, service, environment, signal, id)
  }

  lemma RoutedIsDerived(src: Source, service: string, environment: string, signal: Signal) returns (c: Claim)
    requires Keyed(src.topology) && Routed(src, service, environment, signal)
    ensures c in Derive(src).claims && Key(c) == Key(ArrivalAt(src, service, environment, signal, ""))
  {
    hide Stream, Derive, Routes, Key;
    var id :| Routes(src, service, environment, signal, id);
    var a := ArrivalAt(src, service, environment, signal, id);
    ArrivalStreamed(src, service, environment, signal, a);
    ArrivalKeysEqualExactly(a, ArrivalAt(src, service, environment, signal, ""));
    DerivedIsKeyed(src);
    assert Streamed(Stream(src), Key(a));
    c :| c in Derive(src).claims && Key(c) == Key(a);
  }

  lemma AloneHasOwnClaim(src: Source, service: string, environment: string, signal: Signal)
    requires Keyed(src.topology) && Routed(src, service, environment, signal) && Alone(src, service, environment, signal)
    ensures HasOwnClaim(src, service, environment, signal)
  {
    hide Derive, Routes, Key, RowText;
    var c := RoutedIsDerived(src, service, environment, signal);
    DerivedUnderArrivalKey(src, service, environment, signal, c);
    forall t ensures RoutesText(src, RowText(service, environment), signal, t) <==> Routes(src, service, environment, signal, t) {
      if s, e :| RowText(s, e) == RowText(service, environment) && Routes(src, s, e, signal, t) {
        assert Routed(src, s, e, signal);
      }
    }
  }

  lemma OwnClaimIsAlone(src: Source, service: string, environment: string, signal: Signal)
    requires Keyed(src.topology) && HasOwnClaim(src, service, environment, signal)
    ensures Alone(src, service, environment, signal)
  {
    hide Derive, Key, RowText;
    var c :| Claims(Derive(src), service, environment, signal, c)
      && Increasing(Less, c.tiers) && forall id :: id in c.tiers <==> Routes(src, service, environment, signal, id);
    ArrivalKeysEqualExactly(c, ArrivalAt(src, service, environment, signal, ""));
    DerivedUnderArrivalKey(src, service, environment, signal, c);
    forall s, e | Routed(src, s, e, signal) && RowText(s, e) == RowText(service, environment)
      ensures s == service && e == environment
    {
      var id :| Routes(src, s, e, signal, id);
      assert RoutesText(src, RowText(service, environment), signal, id);
      assert Routes(src, service, environment, signal, id);
      RowTextsInOneEnvironment(s, service, environment);
    }
  }

  /** Arrival claims, exactly, for every row of every source: only a routed row
      has one, no row has two, and a routed row has its own, with exactly its
      Tiers, if and only if no other routed row of the signal joins to the same
      text. */
  lemma ArrivalExactly(src: Source, service: string, environment: string, signal: Signal)
    requires Keyed(src.topology)
    ensures forall c :: Claims(Derive(src), service, environment, signal, c) ==> Routed(src, service, environment, signal)
    ensures forall c, d :: Claims(Derive(src), service, environment, signal, c) && Claims(Derive(src), service, environment, signal, d) ==> c == d
    ensures Routed(src, service, environment, signal) ==>
      (HasOwnClaim(src, service, environment, signal) <==> Alone(src, service, environment, signal))
  {
    hide Derive, Routed, Key, RowText, HasOwnClaim, Alone;
    var probe := ArrivalAt(src, service, environment, signal, "");
    DerivedIsKeyed(src);
    forall c | Claims(Derive(src), service, environment, signal, c)
      ensures Key(c) == Key(probe)
      ensures Routed(src, service, environment, signal)
    {
      ArrivalKeysEqualExactly(c, probe);
      DerivedUnderArrivalKey(src, service, environment, signal, c);
    }
    forall c, d | Claims(Derive(src), service, environment, signal, c) && Claims(Derive(src), service, environment, signal, d) ensures c == d {
      KeyedOnce(Derive(src).claims, c, d);
    }
    if Routed(src, service, environment, signal) {
      if Alone(src, service, environment, signal) { AloneHasOwnClaim(src, service, environment, signal); }
      if HasOwnClaim(src, service, environment, signal) { OwnClaimIsAlone(src, service, environment, signal); }
    }
  }

  /** So every routed row of a source has its own claim if and only if no two
      of them join to one text: something the trees show before any
      derivation. */
  lemma EveryRowHasItsClaimExactly(src: Source, signal: Signal)
    requires Keyed(src.topology)
    ensures (forall s, e :: Routed(src, s, e, signal) ==> HasOwnClaim(src, s, e, signal)) <==>
      forall s, e, t, f :: Routed(src, s, e, signal) && Routed(src, t, f, signal) && RowText(s, e) == RowText(t, f) ==> s == t && e == f
  {
    hide Routed, HasOwnClaim, RowText;
    forall s, e | Routed(src, s, e, signal) ensures HasOwnClaim(src, s, e, signal) <==> Alone(src, s, e, signal) {
      ArrivalExactly(src, s, e, signal);
    }
  }

  ghost predicate PipeFreeServices(src: Source) {
    forall id :: id in src.topology.services ==> '|' !in id
  }

  ghost predicate PipeFreeEnvironments(src: Source) {
    forall id :: id in src.topology.tiers ==> '|' !in src.topology.tiers[id].environment
  }

  /** The separator kept out of either half of a row is enough: then every
      routed row has its own claim. */
  lemma PipeFreeRowsKeepTheirClaims(src: Source, signal: Signal)
    requires Keyed(src.topology)
    ensures PipeFreeServices(src) || PipeFreeEnvironments(src) ==>
      forall s, e :: Routed(src, s, e, signal) ==> HasOwnClaim(src, s, e, signal)
  {
    EveryRowHasItsClaimExactly(src, signal);
    hide HasOwnClaim;
    if PipeFreeServices(src) || PipeFreeEnvironments(src) {
      forall s, e, t, f | Routed(src, s, e, signal) && Routed(src, t, f, signal) && RowText(s, e) == RowText(t, f)
        ensures s == t && e == f
      {
        if PipeFreeServices(src) { SplitAtPipe(s, t, e, f); } else { SplitAtLastPipe(s, t, e, f); }
      }
    }
  }

  lemma KeyedOnce(claims: seq<Claim>, c: Claim, d: Claim)
    requires Increasing(KeyLess, claims) && c in claims && d in claims && Key(c) == Key(d)
    ensures c == d
  {
    hide Key;
    var i :| 0 <= i < |claims| && claims[i] == c;
    var j :| 0 <= j < |claims| && claims[j] == d;
    LessIrreflexive(Key(c));
  }

  // ---- a row that loses its claim ----------------------------------------

  /** Where exactly two routed rows join to one text, neither has its own claim
      and exactly one has a claim at all. */
  lemma OneOfTwoLosesItsClaim(src: Source, s: string, e: string, t: string, f: string, signal: Signal)
    requires Keyed(src.topology)
    requires Routed(src, s, e, signal) && Routed(src, t, f, signal)
    requires RowText(s, e) == RowText(t, f) && (s != t || e != f)
    requires forall x, y :: Routed(src, x, y, signal) && RowText(x, y) == RowText(s, e) ==> (x == s && y == e) || (x == t && y == f)
    ensures !HasOwnClaim(src, s, e, signal) && !HasOwnClaim(src, t, f, signal)
    ensures (exists c :: Claims(Derive(src), s, e, signal, c)) <==> !exists c :: Claims(Derive(src), t, f, signal, c)
  {
    hide Derive, Key, RowText, Routed, HasOwnClaim;
    ArrivalExactly(src, s, e, signal);
    ArrivalExactly(src, t, f, signal);
    var c := RoutedIsDerived(src, s, e, signal);
    DerivedUnderArrivalKey(src, s, e, signal, c);
    assert Claims(Derive(src), c.service, c.environment, signal, c);
    forall x, y | Claims(Derive(src), s, e, signal, x) && Claims(Derive(src), t, f, signal, y) ensures x == y {
      DerivedIsKeyed(src);
      ArrivalKeysEqualExactly(x, y);
      KeyedOnce(Derive(src).claims, x, y);
    }
  }

  /** Two Services whose Paths go through one Tier each, both binding a
      Blueprint that routes logs. The separator stands in a Service id and in
      an Environment. */
  const LOGGING := Blueprint("t/logging", [], [], [], [ClaimDerivation.References.Reference("", "filelog", 0, false)], [], [])

  const COLLIDING := Source(
    "c0ffee",
    Topology(
      map["t/a" := Tier("t/a", "prod", map[], "t/logging"), "t/b" := Tier("t/b", "eu|prod", map[], "t/logging")],
      map["t/shop|eu" := Service("t/shop|eu", "", [["t/a"]]), "t/shop" := Service("t/shop", "", [["t/b"]])]),
    map["t/logging" := LOGGING],
    map[])

  /** Both rows are routed, neither has its own claim with its own Tiers, and
      exactly one of them has any arrival claim at all. */
  lemma ARowLosesItsClaim()
    ensures Keyed(COLLIDING.topology)
    ensures Routed(COLLIDING, "t/shop|eu", "prod", Logs) && Routed(COLLIDING, "t/shop", "eu|prod", Logs)
    ensures !HasOwnClaim(COLLIDING, "t/shop|eu", "prod", Logs) && !HasOwnClaim(COLLIDING, "t/shop", "eu|prod", Logs)
    ensures (exists c :: Claims(Derive(COLLIDING), "t/shop|eu", "prod", Logs, c))
      <==> !exists c :: Claims(Derive(COLLIDING), "t/shop", "eu|prod", Logs, c)
  {
    BothRowsAreRouted();
    CollidingTexts();
    forall x, y | Routed(COLLIDING, x, y, Logs)
      ensures (x == "t/shop|eu" && y == "prod") || (x == "t/shop" && y == "eu|prod")
    {
      OnlyTwoRows(x, y);
    }
    hide Derive, RowText, Routed, HasOwnClaim;
    OneOfTwoLosesItsClaim(COLLIDING, "t/shop|eu", "prod", "t/shop", "eu|prod", Logs);
  }

  lemma CollidingTexts()
    ensures RowText("t/shop|eu", "prod") == RowText("t/shop", "eu|prod") && "t/shop|eu" != "t/shop"
  {
    assert |"t/shop|eu"| != |"t/shop"|;
  }

  lemma BothRowsAreRouted()
    ensures Routed(COLLIDING, "t/shop|eu", "prod", Logs) && Routed(COLLIDING, "t/shop", "eu|prod", Logs)
  {
    assert ["t/a"] in COLLIDING.topology.services["t/shop|eu"].paths && "t/a" in ["t/a"];
    assert ["t/b"] in COLLIDING.topology.services["t/shop"].paths && "t/b" in ["t/b"];
    assert Routes(COLLIDING, "t/shop|eu", "prod", Logs, "t/a");
    assert Routes(COLLIDING, "t/shop", "eu|prod", Logs, "t/b");
  }

  lemma OnlyTwoRows(service: string, environment: string)
    requires Routed(COLLIDING, service, environment, Logs)
    ensures (service == "t/shop|eu" && environment == "prod") || (service == "t/shop" && environment == "eu|prod")
  {
    var id :| Routes(COLLIDING, service, environment, Logs, id);
    var p :| p in COLLIDING.topology.services[service].paths && id in p;
  }

  // ---- the memo ----------------------------------------------------------

  /** In-memory memoisation of the derivation, by commit. */
  class Memo {
    var bySHA: map<string, Set>

    constructor ()
      ensures bySHA == map[]
    {
      bySHA := map[];
    }

    method DeriveOnce(src: Source) returns (s: Set)
      modifies this
      ensures s == if src.sha in old(bySHA) then old(bySHA)[src.sha] else Derive(src)
      ensures bySHA == old(bySHA)[src.sha := s]
    {
      if src.sha in bySHA { return bySHA[src.sha]; }
      s := DeriveLoop(src);
      bySHA := bySHA[src.sha := s];
    }
  }

  /** The first of the sources read at a commit. */
  function FirstAt(sources: seq<Source>, sha: string): Option<Source> {
    if sources == [] then None
    else if sources[0].sha == sha then Some(sources[0])
    else FirstAt(sources[1..], sha)
  }

  /** A fresh memo asked for a run of sources answers each with the derivation
      of the first source of that commit. */
  method MemoRun(sources: seq<Source>) returns (answers: seq<Set>)
    ensures |answers| == |sources|
    ensures forall i :: 0 <= i < |sources| ==>
      FirstAt(sources, sources[i].sha).Some? && answers[i] == Derive(FirstAt(sources, sources[i].sha).value)
  {
    hide Derive;
    var memo := new Memo();
    answers := [];
    for i := 0 to |sources|
      invariant |answers| == i
      invariant forall sha :: sha in memo.bySHA <==> FirstAt(sources[..i], sha).Some?
      invariant forall sha :: sha in memo.bySHA ==> memo.bySHA[sha] == Derive(FirstAt(sources[..i], sha).value)
      invariant forall k :: 0 <= k < i ==>
        FirstAt(sources[..i], sources[k].sha).Some? && answers[k] == Derive(FirstAt(sources[..i], sources[k].sha).value)
    {
      var s := memo.DeriveOnce(sources[i]);
      assert sources[..i + 1] == sources[..i] + [sources[i]];
      forall sha { FirstAtOneMore(sources[..i], sources[i], sha); }
      answers := answers + [s];
    }
    assert sources[..|sources|] == sources;
  }

  lemma {:induction false} FirstAtOneMore(sources: seq<Source>, src: Source, sha: string)
    ensures FirstAt(sources + [src], sha) ==
      if FirstAt(sources, sha).Some? then FirstAt(sources, sha) else if src.sha == sha then Some(src) else None
  {
    if sources != [] {
      assert (sources + [src])[1..] == sources[1..] + [src];
      FirstAtOneMore(sources[1..], src, sha);
    } else {
      assert [src][1..] == [];
    }
  }

  /** Where a commit determines the trees, the memo never changes an answer. */
  lemma MemoIsTransparent(sources: seq<Source>, i: nat)
    requires i < |sources|
    requires forall j, k :: 0 <= j < |sources| && 0 <= k < |sources| && sources[j].sha == sources[k].sha ==> sources[j] == sources[k]
    ensures FirstAt(sources, sources[i].sha) == Some(sources[i])
  {
    var j := FirstAtStands(sources, i);
  }

  lemma {:induction false} FirstAtStands(sources: seq<Source>, i: nat) returns (j: nat)
    requires i < |sources|
    ensures j <= i && sources[j].sha == sources[i].sha && FirstAt(sources, sources[i].sha) == Some(sources[j])
  {
    if sources[0].sha == sources[i].sha {
      j := 0;
    } else {
      var k := FirstAtStands(sources[1..], i - 1);
      j := k + 1;
    }
  }
}
