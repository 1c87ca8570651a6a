/** What a commit's trees claim, read off the trees themselves: which pipeline
    and data claims are streamed and derived, and whose value wins where two
    are written under one key. */
module DerivationMeaning {
  import opened Base
  import opened Verdicts
  import opened Topologies
  import opened References
  import opened Blueprints
  import opened Expectation
  import opened ClaimDerivation
  import opened ClaimExactness

  // ---- what a Blueprint places ---------------------------------------------

  /** The type, a slash, and the name under its team when it has one. */
  ghost function Rendered(m: Component): string {
    m.type_ + "/" + (if m.team == "" then "" else m.team + ".") + m.name
  }

  lemma RenderedIs(m: Component)
    ensures RenderedID(m) == Rendered(m)
  {
  }

  /** The Component some lane entry finds before any entry finds another of its
      rendered id. */
  ghost predicate PlacedAmong(shared: Shared, b: Blueprint, refs: seq<Reference>, m: Component) {
    exists i :: 0 <= i < |refs| && Finds(shared, b, refs[i], m) &&
      forall j, d :: 0 <= j < i && Finds(shared, b, refs[j], d) ==> Rendered(d) != Rendered(m)
  }

  /** Traces, metrics, logs and profiles, in that order; the extensions block
      places nothing. */
  ghost predicate Places(shared: Shared, b: Blueprint, m: Component) {
    PlacedAmong(shared, b, b.traces + b.metrics + b.logs + b.profiles, m)
  }

  ghost predicate FoundAs(shared: Shared, b: Blueprint, refs: seq<Reference>, id: string) {
    exists j, d :: 0 <= j < |refs| && Finds(shared, b, refs[j], d) && Rendered(d) == id
  }

  lemma PlacedMore(shared: Shared, b: Blueprint, refs: seq<Reference>, r: Reference, m: Component)
    ensures PlacedAmong(shared, b, refs + [r], m) <==>
      PlacedAmong(shared, b, refs, m) || (Finds(shared, b, r, m) && !FoundAs(shared, b, refs, Rendered(m)))
    ensures FoundAs(shared, b, refs + [r], Rendered(m)) <==>
      FoundAs(shared, b, refs, Rendered(m)) || exists d :: Finds(shared, b, r, d) && Rendered(d) == Rendered(m)
  {
    hide Finds, Rendered;
    var all := refs + [r];
    assert forall j :: 0 <= j < |refs| ==> all[j] == refs[j];
    assert all[|refs|] == r;
    if PlacedAmong(shared, b, all, m) {
      var i :| 0 <= i < |all| && Finds(shared, b, all[i], m) &&
        forall j, d :: 0 <= j < i && Finds(shared, b, all[j], d) ==> Rendered(d) != Rendered(m);
      if i < |refs| {
        assert Finds(shared, b, refs[i], m);
        forall j, d | 0 <= j < i && Finds(shared, b, refs[j], d) ensures Rendered(d) != Rendered(m) { assert all[j] == refs[j]; }
      } else {
        forall j, d | 0 <= j < |refs| && Finds(shared, b, refs[j], d) ensures Rendered(d) != Rendered(m) { assert all[j] == refs[j]; }
      }
    }
    if PlacedAmong(shared, b, refs, m) {
      var i :| 0 <= i < |refs| && Finds(shared, b, refs[i], m) &&
        forall j, d :: 0 <= j < i && Finds(shared, b, refs[j], d) ==> Rendered(d) != Rendered(m);
      assert Finds(shared, b, all[i], m);
      forall j, d | 0 <= j < i && Finds(shared, b, all[j], d) ensures Rendered(d) != Rendered(m) { assert all[j] == refs[j]; }
    }
    if Finds(shared, b, r, m) && !FoundAs(shared, b, refs, Rendered(m)) {
      assert Finds(shared, b, all[|refs|], m);
      forall j, d | 0 <= j < |refs| && Finds(shared, b, all[j], d) ensures Rendered(d) != Rendered(m) { assert all[j] == refs[j]; }
    }
    if j, d :| 0 <= j < |refs| && Finds(shared, b, refs[j], d) && Rendered(d) == Rendered(m) {
      assert Finds(shared, b, all[j], d);
    }
    if d :| Finds(shared, b, r, d) && Rendered(d) == Rendered(m) { assert Finds(shared, b, all[|refs|], d); }
  }

  lemma {:induction false} PlacedIs(shared: Shared, b: Blueprint, refs: seq<Reference>, m: Component)
    ensures m in Placed(shared, b, refs) <==> PlacedAmong(shared, b, refs, m)
    ensures Rendered(m) in RenderedIDs(Placed(shared, b, refs)) <==> FoundAs(shared, b, refs, Rendered(m))
  {
    if refs != [] {
      var n := |refs| - 1;
      var before := Placed(shared, b, refs[..n]);
      assert refs == refs[..n] + [refs[n]];
      PlacedIs(shared, b, refs[..n], m);
      PlacedMore(shared, b, refs[..n], refs[n], m);
      var found := Resolve(shared, b, refs[n]);
      forall d ensures found == Some(d) <==> Finds(shared, b, refs[n], d) { FindsIs(shared, b, refs[n], d); }
      hide Resolve, Finds, PlacedAmong, FoundAs;
      RenderedIs(m);
      if found.Some? {
        RenderedIs(found.value);
        RenderedOneMore(before, found.value);
        if RenderedID(found.value) == RenderedID(m) { PlacedIs(shared, b, refs[..n], found.value); }
      }
      hide RenderedID, Rendered, RenderedIDs;
    }
  }

  lemma InstantiatedIs(shared: Shared, b: Blueprint, m: Component)
    ensures m in Instantiated(shared, b) <==> Places(shared, b, m)
  {
    var refs := b.traces + b.metrics + b.logs + b.profiles;
    PlacedIs(shared, b, refs, m);
    SortMembers(RenderedLess, Placed(shared, b, refs));
  }

  /** One Component of each rendered id. */
  lemma PlacedOnce(shared: Shared, b: Blueprint, m: Component, n: Component)
    requires Places(shared, b, m) && Places(shared, b, n) && Rendered(m) == Rendered(n)
    ensures m == n
  {
    hide Rendered;
    var refs := b.traces + b.metrics + b.logs + b.profiles;
    var i :| 0 <= i < |refs| && Finds(shared, b, refs[i], m) &&
      forall j, d :: 0 <= j < i && Finds(shared, b, refs[j], d) ==> Rendered(d) != Rendered(m);
    var k :| 0 <= k < |refs| && Finds(shared, b, refs[k], n) &&
      forall j, d :: 0 <= j < k && Finds(shared, b, refs[j], d) ==> Rendered(d) != Rendered(n);
    assert i == k;
    FindsIs(shared, b, refs[i], m);
    FindsIs(shared, b, refs[i], n);
  }

  // ---- pipeline claims -------------------------------------------------------

  ghost predicate KindOfClass(cls: Class, kind: string) {
    match cls
    case Receiver => kind == "receiver"
    case Processor => kind == "processor"
    case Exporter => kind == "exporter"
    case Connector => kind == "connector"
    case Extension => false
  }

  /** A Tier binds a resolvable Blueprint that places a Component, and the claim
      is that Component's: its Tier, its kind, its rendered id, and the
      unidentified shape exactly for the type that drops its id. */
  ghost predicate PlacedAt(src: Source, id: string, m: Component, c: Claim)
    requires c.SelfTelemetry?
  {
    && id in src.topology.tiers
    && src.topology.tiers[id].binding in src.blueprints
    && Places(src.shared, src.blueprints[src.topology.tiers[id].binding], m)
    && c.sha == src.sha && c.tier == src.topology.tiers[id].id
    && KindOfClass(m.class_, c.componentKind)
    && c.component == Rendered(m)
    && c.shape == (if m.type_ == "memory_limiter" then Unidentified else Identified)
  }

  ghost predicate PlacedSomewhere(src: Source, c: Claim)
    requires c.SelfTelemetry?
  {
    exists id, m :: PlacedAt(src, id, m, c)
  }

  lemma PipelineClaimOf(src: Source, id: string, m: Component, c: Claim)
    requires c.SelfTelemetry? && id in src.topology.tiers && src.topology.tiers[id].binding in src.blueprints
    ensures PlacedAt(src, id, m, c) <==>
      && m in Instantiated(src.shared, src.blueprints[src.topology.tiers[id].binding])
      && ComponentKind(m.class_).Some?
      && c == SelfTelemetry(src.sha, src.topology.tiers[id].id, ComponentKind(m.class_).value, RenderedID(m), ShapeOf(m))
  {
    InstantiatedIs(src.shared, src.blueprints[src.topology.tiers[id].binding], m);
    RenderedIs(m);
    hide Instantiated, Places, RenderedID, Rendered;
    assert KindOfClass(m.class_, c.componentKind) <==> ComponentKind(m.class_) == Some(c.componentKind);
    hide KindOfClass, ComponentKind;
  }

  lemma PipelineClaimsOf(src: Source, id: string, c: Claim)
    requires c.SelfTelemetry? && id in src.topology.tiers && src.topology.tiers[id].binding in src.blueprints
    ensures c in PipelineClaims(src, src.topology.tiers[id], Instantiated(src.shared, src.blueprints[src.topology.tiers[id].binding]))
      <==> exists m :: PlacedAt(src, id, m, c)
  {
    PipelineClaimsAre(src, src.topology.tiers[id], Instantiated(src.shared, src.blueprints[src.topology.tiers[id].binding]), c);
    forall m { PipelineClaimOf(src, id, m, c); }
    hide Instantiated, PlacedAt, RenderedID, ComponentKind, ShapeOf, PipelineClaims;
  }

  lemma {:induction false} PipelineStreamIs(src: Source, ids: seq<string>, c: Claim)
    requires c.SelfTelemetry? && forall id :: id in ids ==> id in src.topology.tiers
    ensures c in PipelineStream(src, ids) <==> exists id, m :: id in ids && PlacedAt(src, id, m, c)
  {
    hide PipelineClaims, Instantiated, Places, Rendered, KindOfClass;
    if ids != [] {
      var n := |ids| - 1;
      assert ids == ids[..n] + [ids[n]];
      PipelineStreamIs(src, ids[..n], c);
      assert ids[n] in ids;
      if src.topology.tiers[ids[n]].binding in src.blueprints { PipelineClaimsOf(src, ids[n], c); }
      hide PlacedAt;
    }
  }

  lemma DataStreamIsData(src: Source, ids: seq<string>, c: Claim)
    requires (forall id :: id in ids ==> id in src.topology.services) && c in DataStream(src, ids)
    ensures !c.SelfTelemetry?
  {
    hide DataStream, States;
    DataStreamIs(src, ids, c);
    var service :| service in ids && BackedIn(src, service, c);
    var id :| Backs(src, service, id, c);
    StatesIsData(src, service, src.topology.tiers[id], src.blueprints[src.topology.tiers[id].binding], c);
  }

  /** The pipeline claims streamed are exactly those of what the bound
      Blueprints place. */
  lemma PipelineStreamedExactly(src: Source, c: Claim)
    requires c.SelfTelemetry?
    ensures c in Stream(src) <==> PlacedSomewhere(src, c)
  {
    hide PipelineStream, DataStream, PlacedAt;
    PipelineStreamIs(src, Ascending(src.topology.tiers.Keys), c);
    if c in DataStream(src, Ascending(src.topology.services.Keys)) {
      DataStreamIsData(src, Ascending(src.topology.services.Keys), c);
    }
    forall id, m | PlacedAt(src, id, m, c) ensures id in src.topology.tiers { PlacedAtTier(src, id, m, c); }
  }

  lemma PlacedAtTier(src: Source, id: string, m: Component, c: Claim)
    requires c.SelfTelemetry? && PlacedAt(src, id, m, c)
    ensures id in src.topology.tiers && src.topology.tiers[id].id == c.tier
    ensures '|' !in c.componentKind
  {
    hide Places, Rendered;
  }

  /** And those derived are streamed, one for every key streamed; with no
      separator in a Tier's id, exactly those streamed. */
  lemma PipelineDerivedExactly(src: Source, c: Claim)
    requires Keyed(src.topology) && c.SelfTelemetry?
    ensures c in Derive(src).claims ==> PlacedSomewhere(src, c)
    ensures PlacedSomewhere(src, c) ==> exists d :: d in Derive(src).claims && d.SelfTelemetry? && Key(d) == Key(c)
    ensures (forall id :: id in src.topology.tiers ==> '|' !in id) ==> (c in Derive(src).claims <==> PlacedSomewhere(src, c))
  {
    hide Stream, Derive, Key, PlacedSomewhere;
    DerivedIsKeyed(src);
    forall d | d in Derive(src).claims && d.SelfTelemetry? ensures PlacedSomewhere(src, d) {
      assert Merged(Stream(src), d);
      var first := FirstUnder(Stream(src), Key(d)).value;
      KeyTellsFamily(first, d);
      assert first == d;
      PipelineStreamedExactly(src, d);
    }
    if PlacedSomewhere(src, c) {
      PipelineStreamedExactly(src, c);
      assert Streamed(Stream(src), Key(c));
      var d :| d in Derive(src).claims && Key(d) == Key(c);
      KeyTellsFamily(d, c);
      if forall id :: id in src.topology.tiers ==> '|' !in id { PlacedUnderOneKey(src, c, d); }
    }
  }

  lemma PlacedUnderOneKey(src: Source, c: Claim, d: Claim)
    requires Keyed(src.topology) && (forall id :: id in src.topology.tiers ==> '|' !in id)
    requires c.SelfTelemetry? && d.SelfTelemetry? && PlacedSomewhere(src, c) && PlacedSomewhere(src, d) && Key(c) == Key(d)
    ensures c == d
  {
    hide Key, Places, Rendered;
    var id, m :| PlacedAt(src, id, m, c);
    var id', m' :| PlacedAt(src, id', m', d);
    PlacedAtTier(src, id, m, c);
    PlacedAtTier(src, id', m', d);
    KeysNameSubjects(c, d);
    assert id == id';
    PlacedOnce(src.shared, src.blueprints[src.topology.tiers[id].binding], m, m');
  }

  // ---- data claims -----------------------------------------------------------

  /** The entries of a signal's own lane. */
  ghost function LaneOf(b: Blueprint, signal: Signal): seq<Reference> {
    match signal
    case Traces => b.traces
    case Metrics => b.metrics
    case Logs => b.logs
  }

  /** A Path of the Service goes through the Tier, which binds a resolvable
      Blueprint. */
  ghost predicate Traverses(src: Source, service: string, id: string) {
    && service in src.topology.services
    && (exists p :: p in src.topology.services[service].paths && id in p)
    && id in src.topology.tiers && src.topology.tiers[id].binding in src.blueprints
  }

  ghost function BoundTo(src: Source, id: string): Blueprint
    requires id in src.topology.tiers && src.topology.tiers[id].binding in src.blueprints
  {
    src.blueprints[src.topology.tiers[id].binding]
  }

  /** The `k`th entry of the lane finds a processor whose `n`th insertion on the
      signal is this one. */
  ghost predicate Writes(src: Source, b: Blueprint, signal: Signal, k: nat, n: nat, i: Insertion) {
    exists m :: k < |LaneOf(b, signal)| && Finds(src.shared, b, LaneOf(b, signal)[k], m) && m.class_ == Processor
      && signal in m.inserts && n < |m.inserts[signal]| && m.inserts[signal][n] == i
  }

  lemma WritesIs(src: Source, b: Blueprint, signal: Signal, k: nat, n: nat, i: Insertion)
    ensures Writes(src, b, signal, k, n, i) <==>
      k < |LaneOf(b, signal)| && n < |Inserts(src, b, LaneOf(b, signal)[k], signal)| && Inserts(src, b, LaneOf(b, signal)[k], signal)[n] == i
  {
    if k < |LaneOf(b, signal)| {
      forall m ensures Resolve(src.shared, b, LaneOf(b, signal)[k]) == Some(m) <==> Finds(src.shared, b, LaneOf(b, signal)[k], m) {
        FindsIs(src.shared, b, LaneOf(b, signal)[k], m);
      }
      hide Resolve, Finds;
    }
  }

  /** The Tier backs the claim for its Service: its lane for the signal is
      authored, and an enrichment is written by it. */
  ghost predicate BackedThrough(src: Source, id: string, c: Claim)
    requires !c.SelfTelemetry?
  {
    && Traverses(src, c.service, id)
    && c.sha == src.sha && c.environment == src.topology.tiers[id].environment && c.tiers == [src.topology.tiers[id].id]
    && LaneOf(BoundTo(src, id), c.signal) != []
    && (c.Enrichment? ==> exists k, n :: Writes(src, BoundTo(src, id), c.signal, k, n, Insertion(c.attribute, c.value)))
  }

  lemma InsertedIs(src: Source, b: Blueprint, signal: Signal, i: Insertion)
    ensures Inserted(src, b, signal, i) <==> exists k, n :: Writes(src, b, signal, k, n, i)
  {
    var refs := LaneOf(b, signal);
    assert refs == Entries(b, LaneFor(signal));
    forall k: nat, n: nat ensures Writes(src, b, signal, k, n, i) <==>
      k < |refs| && n < |Inserts(src, b, refs[k], signal)| && Inserts(src, b, refs[k], signal)[n] == i { WritesIs(src, b, signal, k, n, i); }
    hide Writes, Inserts;
    if r :| r in refs && i in Inserts(src, b, r, signal) {
      var k :| 0 <= k < |refs| && refs[k] == r;
      var n :| 0 <= n < |Inserts(src, b, r, signal)| && Inserts(src, b, r, signal)[n] == i;
      assert Writes(src, b, signal, k, n, i);
    }
    if k: nat, n: nat :| Writes(src, b, signal, k, n, i) { assert refs[k] in refs; }
  }

  /** The data claims streamed are exactly those some Tier backs. */
  lemma DataStreamedExactly(src: Source, c: Claim)
    requires !c.SelfTelemetry?
    ensures c in Stream(src) <==> exists id :: BackedThrough(src, id, c)
  {
    hide Stream;
    StreamIs(src, c);
    forall id ensures Backs(src, c.service, id, c) <==> BackedThrough(src, id, c) {
      if c.Enrichment? && id in src.topology.tiers && src.topology.tiers[id].binding in src.blueprints {
        InsertedIs(src, BoundTo(src, id), c.signal, Insertion(c.attribute, c.value));
      }
      hide Inserted, Writes;
    }
    hide Backs, BackedThrough;
  }

  // ---- whose value wins ------------------------------------------------------

  /** One insertion as one Service's Path meets it. */
  datatype Writing = Writing(service: string, tier: string, signal: Signal, entry: nat, index: nat)

  ghost predicate Written(src: Source, w: Writing, i: Insertion) {
    Traverses(src, w.service, w.tier) && Writes(src, BoundTo(src, w.tier), w.signal, w.entry, w.index, i)
  }

  ghost function InsertedClaim(src: Source, service: string, tier: Tier, signal: Signal, i: Insertion): Claim {
    Enrichment(src.sha, service, tier.environment, signal, i.key, i.value, [tier.id])
  }

  /** The insertion is written under that key. */
  ghost predicate WrittenUnder(src: Source, w: Writing, i: Insertion, key: string) {
    Written(src, w, i) && Key(InsertedClaim(src, w.service, src.topology.tiers[w.tier], w.signal, i)) == key
  }

  ghost function LaneRank(signal: Signal): nat {
    match signal
    case Traces => 0
    case Metrics => 1
    case Logs => 2
  }

  /** Services by id, then their Tiers by id, then traces, metrics, logs, then
      lane entries, then a processor's own order. */
  ghost predicate Earlier(w: Writing, v: Writing) {
    if w.service != v.service then Less(w.service, v.service)
    else if w.tier != v.tier then Less(w.tier, v.tier)
    else if w.signal != v.signal then LaneRank(w.signal) < LaneRank(v.signal)
    else w.entry < v.entry || (w.entry == v.entry && w.index < v.index)
  }

  lemma {:induction false} FirstUnderAppend(a: seq<Claim>, b: seq<Claim>, key: string)
    ensures FirstUnder(a + b, key) == if FirstUnder(a, key).Some? then FirstUnder(a, key) else FirstUnder(b, key)
  {
    hide Key;
    if b == [] {
      assert a + b == a;
    } else {
      var n := |b| - 1;
      assert (a + b)[..|a + b| - 1] == a + b[..n];
      FirstUnderAppend(a, b[..n], key);
    }
  }

  lemma FirstOfOne(c: Claim, key: string)
    ensures FirstUnder([c], key) == if Key(c) == key then Some(c) else None
  {
    hide Key;
    assert [c][..0] == [];
  }

  lemma InsertionIsAmong(src: Source, service: string, tier: Tier, signal: Signal, inserts: seq<Insertion>, j: nat)
    requires j < |inserts|
    ensures InsertedClaim(src, service, tier, signal, inserts[j]) in InsertionClaims(src, service, tier, signal, inserts)
  {
    assert inserts[j] in inserts;
    InsertionClaimsAre(src, service, tier, signal, inserts, InsertedClaim(src, service, tier, signal, inserts[j]));
  }

  lemma NotUnder(claims: seq<Claim>, c: Claim, key: string)
    requires FirstUnder(claims, key).None? && c in claims
    ensures Key(c) != key
  {
    hide Key, FirstUnder;
  }

  lemma NothingInserted(src: Source, service: string, tier: Tier, signal: Signal, key: string)
    ensures FirstUnder(InsertionClaims(src, service, tier, signal, []), key) == None
  {
  }

  lemma InsertionsGrow(src: Source, service: string, tier: Tier, signal: Signal, inserts: seq<Insertion>)
    requires inserts != []
    ensures InsertionClaims(src, service, tier, signal, inserts)
      == InsertionClaims(src, service, tier, signal, inserts[..|inserts| - 1]) + [InsertedClaim(src, service, tier, signal, inserts[|inserts| - 1])]
  {
  }

  /** The first insertion under a key: nothing before it is. */
  lemma {:induction false} FirstInsertion(src: Source, service: string, tier: Tier, signal: Signal, inserts: seq<Insertion>, key: string) returns (n: nat)
    requires FirstUnder(InsertionClaims(src, service, tier, signal, inserts), key).Some?
    ensures n < |inserts|
    ensures FirstUnder(InsertionClaims(src, service, tier, signal, inserts), key) == Some(InsertedClaim(src, service, tier, signal, inserts[n]))
    ensures FirstUnder(InsertionClaims(src, service, tier, signal, inserts[..n]), key).None?
  {
    hide Key, FirstUnder, InsertionClaims, InsertedClaim;
    NothingInserted(src, service, tier, signal, key);
    n := |inserts| - 1;
    assert n >= 0;
    var before, last := InsertionClaims(src, service, tier, signal, inserts[..n]), InsertedClaim(src, service, tier, signal, inserts[n]);
    InsertionsGrow(src, service, tier, signal, inserts);
    FirstUnderAppend(before, [last], key);
    FirstOfOne(last, key);
    if FirstUnder(before, key).Some? {
      var m := FirstInsertion(src, service, tier, signal, inserts[..n], key);
      assert inserts[..n][..m] == inserts[..m];
      n := m;
    }
  }

  /** The first lane entry that inserts under it, and where it does. */
  lemma {:induction false} FirstEntry(src: Source, service: string, tier: Tier, b: Blueprint, signal: Signal, refs: seq<Reference>, key: string)
    returns (k: nat, n: nat)
    requires FirstUnder(EntryClaims(src, service, tier, b, signal, refs), key).Some?
    ensures k < |refs| && n < |Inserts(src, b, refs[k], signal)|
    ensures FirstUnder(EntryClaims(src, service, tier, b, signal, refs), key)
      == Some(InsertedClaim(src, service, tier, signal, Inserts(src, b, refs[k], signal)[n]))
    ensures FirstUnder(EntryClaims(src, service, tier, b, signal, refs[..k]), key).None?
    ensures FirstUnder(InsertionClaims(src, service, tier, signal, Inserts(src, b, refs[k], signal)[..n]), key).None?
  {
    hide Key, Inserts, InsertedClaim;
    k := |refs| - 1;
    var before := EntryClaims(src, service, tier, b, signal, refs[..k]);
    var here := InsertionClaims(src, service, tier, signal, Inserts(src, b, refs[k], signal));
    assert EntryClaims(src, service, tier, b, signal, refs) == before + here;
    hide InsertionClaims, EntryClaims;
    FirstUnderAppend(before, here, key);
    hide FirstUnder;
    if FirstUnder(before, key).Some? {
      var j: nat;
      j, n := FirstEntry(src, service, tier, b, signal, refs[..k], key);
      assert refs[..k][..j] == refs[..j];
      k := j;
    } else {
      n := FirstInsertion(src, service, tier, signal, Inserts(src, b, refs[k], signal), key);
    }
  }

  /** Lexicographic order of a lane's insertions. */
  ghost predicate Before(j: nat, l: nat, k: nat, n: nat) { j < k || (j == k && l < n) }

  lemma NothingBefore(src: Source, service: string, tier: Tier, b: Blueprint, signal: Signal, refs: seq<Reference>, key: string,
                      k: nat, n: nat, j: nat, l: nat)
    requires k < |refs| && n < |Inserts(src, b, refs[k], signal)|
    requires FirstUnder(EntryClaims(src, service, tier, b, signal, refs[..k]), key).None?
    requires FirstUnder(InsertionClaims(src, service, tier, signal, Inserts(src, b, refs[k], signal)[..n]), key).None?
    requires Before(j, l, k, n) && j < |refs| && l < |Inserts(src, b, refs[j], signal)|
    ensures Key(InsertedClaim(src, service, tier, signal, Inserts(src, b, refs[j], signal)[l])) != key
  {
    var i := Inserts(src, b, refs[j], signal)[l];
    var c := InsertedClaim(src, service, tier, signal, i);
    hide Key, Inserts, FirstUnder;
    if j < k {
      assert refs[..k][j] == refs[j] && refs[j] in refs[..k];
      EntryClaimsAre(src, service, tier, b, signal, refs[..k], c);
      NotUnder(EntryClaims(src, service, tier, b, signal, refs[..k]), c, key);
    } else {
      InsertionIsAmong(src, service, tier, signal, Inserts(src, b, refs[k], signal)[..n], l);
      NotUnder(InsertionClaims(src, service, tier, signal, Inserts(src, b, refs[k], signal)[..n]), c, key);
    }
  }

  // the lanes of one Tier

  lemma LanesSplit(src: Source, service: string, tier: Tier, b: Blueprint)
    ensures LanesClaims(src, service, tier, b, SIGNAL_LANES)
      == (LaneClaims(src, service, tier, b, TracesLane) + LaneClaims(src, service, tier, b, MetricsLane)) + LaneClaims(src, service, tier, b, LogsLane)
  {
    hide EntryClaims;
    assert LaneClaims(src, service, tier, b, ProfilesLane) == [];
    hide LaneClaims;
    assert SIGNAL_LANES[..3] == [TracesLane, MetricsLane, LogsLane];
    assert SIGNAL_LANES[..3][..2] == [TracesLane, MetricsLane];
    assert [TracesLane, MetricsLane][..1] == [TracesLane];
    assert [TracesLane][..0] == [];
    assert LanesClaims(src, service, tier, b, [TracesLane]) == [] + LaneClaims(src, service, tier, b, TracesLane);
    assert LanesClaims(src, service, tier, b, [TracesLane, MetricsLane])
        == LaneClaims(src, service, tier, b, TracesLane) + LaneClaims(src, service, tier, b, MetricsLane);
    assert LanesClaims(src, service, tier, b, SIGNAL_LANES[..3])
        == LanesClaims(src, service, tier, b, [TracesLane, MetricsLane]) + LaneClaims(src, service, tier, b, LogsLane);
  }

  ghost function FirstOfLane(src: Source, service: string, tier: Tier, b: Blueprint, signal: Signal, key: string): Option<Claim> {
    FirstUnder(EntryClaims(src, service, tier, b, signal, LaneOf(b, signal)), key)
  }

  /** An enrichment key is found among a lane's insertions or not at all. */
  lemma FirstInLane(src: Source, service: string, tier: Tier, b: Blueprint, signal: Signal, lane: Lane, probe: Claim)
    requires probe.Enrichment? && lane == LaneFor(signal)
    ensures FirstUnder(LaneClaims(src, service, tier, b, lane), Key(probe)) == FirstOfLane(src, service, tier, b, signal, Key(probe))
  {
    var arrival := Arrival(src.sha, service, tier.environment, signal, [tier.id]);
    var entries := EntryClaims(src, service, tier, b, signal, LaneOf(b, signal));
    assert LaneClaims(src, service, tier, b, lane) == if LaneOf(b, signal) == [] then [] else [arrival] + entries;
    assert LaneOf(b, signal) == [] ==> entries == [];
    if Key(arrival) == Key(probe) { KeyTellsFamily(arrival, probe); }
    hide Key, EntryClaims, LaneClaims;
    FirstUnderAppend([arrival], entries, Key(probe));
    FirstOfOne(arrival, Key(probe));
    hide FirstUnder;
  }

  /** The Tier's first claim under an enrichment key is its first lane's. */
  lemma FirstOfLanes(src: Source, service: string, id: string, probe: Claim) returns (signal: Signal)
    requires probe.Enrichment? && FirstUnder(TierClaims(src, service, id), Key(probe)).Some?
    ensures id in src.topology.tiers && src.topology.tiers[id].binding in src.blueprints
    ensures FirstUnder(TierClaims(src, service, id), Key(probe)) == FirstOfLane(src, service, src.topology.tiers[id], BoundTo(src, id), signal, Key(probe))
    ensures forall s :: LaneRank(s) < LaneRank(signal) ==> FirstOfLane(src, service, src.topology.tiers[id], BoundTo(src, id), s, Key(probe)).None?
  {
    hide Key, LaneClaims, TierClaims, FirstUnder, Streamed, FirstOfLane;
    TierClaimsSplit(src, service, id, Key(probe));
    var tier, b, key := src.topology.tiers[id], BoundTo(src, id), Key(probe);
    FirstOfThree(LaneClaims(src, service, tier, b, TracesLane), LaneClaims(src, service, tier, b, MetricsLane),
                 LaneClaims(src, service, tier, b, LogsLane), key);
    FirstInLane(src, service, tier, b, Traces, TracesLane, probe);
    FirstInLane(src, service, tier, b, Metrics, MetricsLane, probe);
    FirstInLane(src, service, tier, b, Logs, LogsLane, probe);
    signal := if FirstOfLane(src, service, tier, b, Traces, key).Some? then Traces
              else if FirstOfLane(src, service, tier, b, Metrics, key).Some? then Metrics else Logs;
  }

  lemma TierClaimsSplit(src: Source, service: string, id: string, key: string)
    requires FirstUnder(TierClaims(src, service, id), key).Some?
    ensures id in src.topology.tiers && src.topology.tiers[id].binding in src.blueprints
    ensures var tier, b := src.topology.tiers[id], BoundTo(src, id);
      TierClaims(src, service, id)
        == (LaneClaims(src, service, tier, b, TracesLane) + LaneClaims(src, service, tier, b, MetricsLane)) + LaneClaims(src, service, tier, b, LogsLane)
  {
    hide Key, FirstUnder, LaneClaims, LanesClaims;
    assert id in src.topology.tiers && src.topology.tiers[id].binding in src.blueprints;
    LanesSplit(src, service, src.topology.tiers[id], BoundTo(src, id));
  }

  lemma FirstOfThree(a: seq<Claim>, b: seq<Claim>, c: seq<Claim>, key: string)
    ensures FirstUnder((a + b) + c, key) ==
      if FirstUnder(a, key).Some? then FirstUnder(a, key) else if FirstUnder(b, key).Some? then FirstUnder(b, key) else FirstUnder(c, key)
  {
    hide Key, FirstUnder;
    FirstUnderAppend(a + b, c, key);
    FirstUnderAppend(a, b, key);
  }

  /** One of the Tier's insertions is under the key. */
  ghost predicate UnderAt(src: Source, service: string, v: Writing, i: Insertion, key: string)
    requires v.tier in src.topology.tiers && src.topology.tiers[v.tier].binding in src.blueprints
  {
    && Writes(src, BoundTo(src, v.tier), v.signal, v.entry, v.index, i)
    && Key(InsertedClaim(src, service, src.topology.tiers[v.tier], v.signal, i)) == key
  }

  lemma FirstAtTier(src: Source, service: string, id: string, probe: Claim) returns (w: Writing, i: Insertion)
    requires probe.Enrichment? && FirstUnder(TierClaims(src, service, id), Key(probe)).Some?
    ensures id in src.topology.tiers && src.topology.tiers[id].binding in src.blueprints
    ensures w.service == service && w.tier == id && UnderAt(src, service, w, i, Key(probe))
    ensures FirstUnder(TierClaims(src, service, id), Key(probe)) == Some(InsertedClaim(src, service, src.topology.tiers[id], w.signal, i))
    ensures forall v: Writing, j :: v.service == service && v.tier == id && Earlier(v, w) ==> !UnderAt(src, service, v, j, Key(probe))
  {
    hide Key, EntryClaims, InsertionClaims, Inserts, Writes, TierClaims, FirstUnder, InsertedClaim;
    var signal := FirstOfLanes(src, service, id, probe);
    var tier, b := src.topology.tiers[id], BoundTo(src, id);
    var k, n := FirstEntry(src, service, tier, b, signal, LaneOf(b, signal), Key(probe));
    w, i := Writing(service, id, signal, k, n), Inserts(src, b, LaneOf(b, signal)[k], signal)[n];
    WritesIs(src, b, signal, k, n, i);
    forall v: Writing, j | v.service == service && v.tier == id && Earlier(v, w) && Writes(src, b, v.signal, v.entry, v.index, j)
      ensures Key(InsertedClaim(src, service, tier, v.signal, j)) != Key(probe)
    {
      WritesIs(src, b, v.signal, v.entry, v.index, j);
      if v.signal == signal {
        NothingBefore(src, service, tier, b, signal, LaneOf(b, signal), Key(probe), k, n, v.entry, v.index);
      } else {
        NothingInLane(src, service, tier, b, v.signal, Key(probe), v.entry, v.index);
      }
    }
  }

  lemma NothingInLane(src: Source, service: string, tier: Tier, b: Blueprint, signal: Signal, key: string, j: nat, l: nat)
    requires FirstUnder(EntryClaims(src, service, tier, b, signal, LaneOf(b, signal)), key).None?
    requires j < |LaneOf(b, signal)| && l < |Inserts(src, b, LaneOf(b, signal)[j], signal)|
    ensures Key(InsertedClaim(src, service, tier, signal, Inserts(src, b, LaneOf(b, signal)[j], signal)[l])) != key
  {
    var refs := LaneOf(b, signal);
    var i := Inserts(src, b, refs[j], signal)[l];
    hide Key, Inserts, FirstUnder;
    EntryClaimsAre(src, service, tier, b, signal, refs, InsertedClaim(src, service, tier, signal, i));
    assert refs[j] in refs && i in Inserts(src, b, refs[j], signal);
    NotUnder(EntryClaims(src, service, tier, b, signal, refs), InsertedClaim(src, service, tier, signal, i), key);
  }

  // the Tiers of one Service, and the Services

  lemma {:induction false} FirstTier(src: Source, service: string, ids: seq<string>, key: string) returns (x: nat)
    requires FirstUnder(ServiceClaims(src, service, ids), key).Some?
    ensures x < |ids| && FirstUnder(ServiceClaims(src, service, ids), key) == FirstUnder(TierClaims(src, service, ids[x]), key)
    ensures forall y :: 0 <= y < x ==> FirstUnder(TierClaims(src, service, ids[y]), key).None?
  {
    hide Key, FirstUnder, TierClaims, Streamed;
    assert ids == [] ==> ServiceClaims(src, service, ids) == [];
    x := |ids| - 1;
    var before := ServiceClaims(src, service, ids[..x]);
    FirstUnderAppend(before, TierClaims(src, service, ids[x]), key);
    if FirstUnder(before, key).Some? {
      x := FirstTier(src, service, ids[..x], key);
    } else {
      forall y | 0 <= y < x ensures FirstUnder(TierClaims(src, service, ids[y]), key).None? {
        NoneWithin(src, service, ids[..x], y, key);
      }
    }
  }

  lemma {:induction false} NoneWithin(src: Source, service: string, ids: seq<string>, y: nat, key: string)
    requires FirstUnder(ServiceClaims(src, service, ids), key).None? && y < |ids|
    ensures FirstUnder(TierClaims(src, service, ids[y]), key).None?
  {
    hide Key, FirstUnder, TierClaims, Streamed;
    var n := |ids| - 1;
    FirstUnderAppend(ServiceClaims(src, service, ids[..n]), TierClaims(src, service, ids[n]), key);
    if y < n { NoneWithin(src, service, ids[..n], y, key); }
  }

  ghost function ClaimsOfService(src: Source, service: string): seq<Claim>
    requires service in src.topology.services
  {
    ServiceClaims(src, service, TraversedTiers(src.topology.services[service]))
  }

  lemma NoData(src: Source)
    ensures DataStream(src, []) == []
  {
  }

  lemma {:induction false} FirstService(src: Source, ids: seq<string>, key: string) returns (x: nat)
    requires forall id :: id in ids ==> id in src.topology.services
    requires FirstUnder(DataStream(src, ids), key).Some?
    ensures x < |ids| && FirstUnder(DataStream(src, ids), key) == FirstUnder(ClaimsOfService(src, ids[x]), key)
    ensures forall y :: 0 <= y < x ==> FirstUnder(ClaimsOfService(src, ids[y]), key).None?
  {
    hide Key, FirstUnder, ServiceClaims, Streamed, TraversedTiers;
    NoData(src);
    x := |ids| - 1;
    var before := DataStream(src, ids[..x]);
    FirstUnderAppend(before, ClaimsOfService(src, ids[x]), key);
    if FirstUnder(before, key).Some? {
      x := FirstService(src, ids[..x], key);
    } else {
      forall y | 0 <= y < x ensures FirstUnder(ClaimsOfService(src, ids[y]), key).None? {
        NoneAmong(src, ids[..x], y, key);
      }
    }
  }

  lemma {:induction false} NoneAmong(src: Source, ids: seq<string>, y: nat, key: string)
    requires forall id :: id in ids ==> id in src.topology.services
    requires FirstUnder(DataStream(src, ids), key).None? && y < |ids|
    ensures FirstUnder(ClaimsOfService(src, ids[y]), key).None?
  {
    hide Key, FirstUnder, ServiceClaims, Streamed, TraversedTiers;
    var n := |ids| - 1;
    FirstUnderAppend(DataStream(src, ids[..n]), ClaimsOfService(src, ids[n]), key);
    if y < n { NoneAmong(src, ids[..n], y, key); }
  }

  lemma TierClaimsHold(src: Source, v: Writing, j: Insertion)
    requires Written(src, v, j)
    ensures InsertedClaim(src, v.service, src.topology.tiers[v.tier], v.signal, j) in TierClaims(src, v.service, v.tier)
  {
    hide Writes, Inserted, LanesClaims;
    var tier, b := src.topology.tiers[v.tier], BoundTo(src, v.tier);
    var c := InsertedClaim(src, v.service, tier, v.signal, j);
    InsertedIs(src, b, v.signal, j);
    assert Insertion(c.attribute, c.value) == j;
    LanesClaimsAre(src, v.service, tier, b, c);
    assert Entries(b, LaneFor(v.signal)) != [] by {
      var r := InsertedEntry(src, b, v.signal, j);
    }
  }

  lemma InsertedEntry(src: Source, b: Blueprint, signal: Signal, i: Insertion) returns (r: Reference)
    requires Inserted(src, b, signal, i)
    ensures r in Entries(b, LaneFor(signal))
  {
    r :| r in Entries(b, LaneFor(signal)) && i in Inserts(src, b, r, signal);
  }

  /** In an ascending list, what is not found before a place is at it or after
      it. */
  lemma AtOrAfter(ids: seq<string>, x: nat, id: string)
    requires Increasing(Less, ids) && x < |ids| && id in ids && forall y :: 0 <= y < x ==> ids[y] != id
    ensures id == ids[x] || Less(ids[x], id)
  {
    hide Less;
    var y :| 0 <= y < |ids| && ids[y] == id;
  }

  lemma FirstInService(src: Source, service: string, probe: Claim) returns (w: Writing, i: Insertion)
    requires service in src.topology.services && probe.Enrichment? && FirstUnder(ClaimsOfService(src, service), Key(probe)).Some?
    ensures w.service == service && WrittenUnder(src, w, i, Key(probe))
    ensures FirstUnder(ClaimsOfService(src, service), Key(probe)) == Some(InsertedClaim(src, service, src.topology.tiers[w.tier], w.signal, i))
    ensures forall v: Writing, j :: v.service == service && WrittenUnder(src, v, j, Key(probe)) ==> v == w || Earlier(w, v)
  {
    hide Key, FirstUnder, TierClaims, ServiceClaims, Streamed, Ascending, Less, Writes, InsertedClaim;
    var svc := src.topology.services[service];
    var ids := TraversedTiers(svc);
    var x := FirstTier(src, service, ids, Key(probe));
    w, i := FirstAtTier(src, service, ids[x], probe);
    assert ids[x] in ids;
    forall v: Writing, j | v.service == service && WrittenUnder(src, v, j, Key(probe)) ensures v == w || Earlier(w, v) {
      assert v.tier in ids;
      TierClaimsHold(src, v, j);
      forall y | 0 <= y < x ensures ids[y] != v.tier {
        if ids[y] == v.tier {
          NotUnder(TierClaims(src, service, v.tier), InsertedClaim(src, service, src.topology.tiers[v.tier], v.signal, j), Key(probe));
        }
      }
      AtOrAfter(ids, x, v.tier);
      if v.tier == w.tier {
        assert UnderAt(src, service, v, j, Key(probe));
        EarlierIsTotal(v, w);
      }
    }
  }

  lemma EarlierIsTotal(v: Writing, w: Writing)
    requires v.service == w.service && v.tier == w.tier
    ensures v == w || Earlier(v, w) || Earlier(w, v)
  {
  }

  lemma FirstInData(src: Source, probe: Claim) returns (w: Writing, i: Insertion)
    requires probe.Enrichment? && FirstUnder(Stream(src), Key(probe)).Some?
    ensures WrittenUnder(src, w, i, Key(probe))
    ensures FirstUnder(Stream(src), Key(probe)) == Some(InsertedClaim(src, w.service, src.topology.tiers[w.tier], w.signal, i))
    ensures forall v, j :: WrittenUnder(src, v, j, Key(probe)) ==> v == w || Earlier(w, v)
  {
    var ids := Ascending(src.topology.services.Keys);
    NoPipelineClaim(src, probe);
    hide Key, FirstUnder, ServiceClaims, Streamed, Ascending, Less, Writes, InsertedClaim, PipelineStream, DataStream, TraversedTiers, TierClaims;
    FirstUnderAppend(PipelineStream(src, Ascending(src.topology.tiers.Keys)), DataStream(src, ids), Key(probe));
    var x := FirstService(src, ids, Key(probe));
    w, i := FirstInService(src, ids[x], probe);
    forall v, j | WrittenUnder(src, v, j, Key(probe)) ensures v == w || Earlier(w, v) {
      assert v.service in ids;
      InServiceClaims(src, v, j);
      forall y | 0 <= y < x ensures ids[y] != v.service {
        if ids[y] == v.service {
          NotUnder(ClaimsOfService(src, v.service), InsertedClaim(src, v.service, src.topology.tiers[v.tier], v.signal, j), Key(probe));
        }
      }
      AtOrAfter(ids, x, v.service);
    }
  }

  lemma InServiceClaims(src: Source, v: Writing, j: Insertion)
    requires Written(src, v, j)
    ensures InsertedClaim(src, v.service, src.topology.tiers[v.tier], v.signal, j) in ClaimsOfService(src, v.service)
  {
    hide Writes, InsertedClaim, Ascending, LanesClaims;
    TierClaimsHold(src, v, j);
    assert v.tier in TraversedTiers(src.topology.services[v.service]);
    TierIsWithin(src, v.service, TraversedTiers(src.topology.services[v.service]), v.tier);
  }

  lemma {:induction false} TierIsWithin(src: Source, service: string, ids: seq<string>, id: string)
    requires id in ids
    ensures forall c :: c in TierClaims(src, service, id) ==> c in ServiceClaims(src, service, ids)
  {
    hide TierClaims;
    var n := |ids| - 1;
    if ids[n] != id {
      assert ids == ids[..n] + [ids[n]];
      TierIsWithin(src, service, ids[..n], id);
    }
  }

  lemma NoPipelineClaim(src: Source, probe: Claim)
    requires probe.Enrichment?
    ensures FirstUnder(PipelineStream(src, Ascending(src.topology.tiers.Keys)), Key(probe)).None?
  {
    hide Key, PipelineStream, Ascending;
    var stream := PipelineStream(src, Ascending(src.topology.tiers.Keys));
    var first := FirstUnder(stream, Key(probe));
    if first.Some? {
      PipelineStreamIsPipeline(src, Ascending(src.topology.tiers.Keys), first.value);
      KeyTellsFamily(first.value, probe);
    }
  }

  /** The claim is the one the insertion makes, and nothing is written under
      its key earlier. */
  ghost predicate Wins(src: Source, c: Claim, key: string, w: Writing, i: Insertion) {
    && WrittenUnder(src, w, i, key)
    && c.Enrichment? && c.sha == src.sha && c.service == w.service && c.environment == src.topology.tiers[w.tier].environment
    && c.signal == w.signal && c.attribute == i.key && c.value == i.value
    && forall v, j :: WrittenUnder(src, v, j, key) ==> v == w || Earlier(w, v)
  }

  /** An enrichment claim is derived under exactly the keys something is written
      under, and where several Tiers, lanes, entries or insertions write under
      one key, the first of them in the order of derivation says whose value
      stands; all their Tiers back it. */
  lemma EnrichmentExactly(src: Source, probe: Claim)
    requires Keyed(src.topology) && probe.Enrichment?
    ensures (exists c :: c in Derive(src).claims && Key(c) == Key(probe)) <==> exists w, i :: WrittenUnder(src, w, i, Key(probe))
    ensures forall c :: c in Derive(src).claims && Key(c) == Key(probe) ==>
      && (exists w, i :: Wins(src, c, Key(probe), w, i))
      && Increasing(Less, c.tiers) && forall t :: t in c.tiers <==> exists v, j :: WrittenUnder(src, v, j, Key(probe)) && v.tier == t
  {
    hide Stream, Derive, Key, WrittenUnder, TiersUnder, Earlier, Increasing, Wins, Merged, Streamed;
    DerivedIsKeyed(src);
    if w, i :| WrittenUnder(src, w, i, Key(probe)) {
      WrittenIsStreamed(src, w, i, Key(probe));
      StreamedIsDerived(src, Key(probe));
    }
    forall c | c in Derive(src).claims && Key(c) == Key(probe)
      ensures exists w, i :: Wins(src, c, Key(probe), w, i)
      ensures exists w, i :: WrittenUnder(src, w, i, Key(probe))
      ensures c.Enrichment? && Increasing(Less, c.tiers)
      ensures forall t :: t in c.tiers <==> exists v, j :: WrittenUnder(src, v, j, Key(probe)) && v.tier == t
    {
      var w, i := DerivedWins(src, probe, c);
      forall t { TiersWritten(src, probe, t); }
    }
  }

  lemma StreamedIsDerived(src: Source, key: string)
    requires Streamed(Stream(src), key)
    ensures exists c :: c in Derive(src).claims && Key(c) == key
  {
    hide Stream, Derive, Key;
    DerivedIsKeyed(src);
    assert Streamed(Derive(src).claims, key);
  }

  lemma DerivedWins(src: Source, probe: Claim, c: Claim) returns (w: Writing, i: Insertion)
    requires Keyed(src.topology) && probe.Enrichment? && c in Derive(src).claims && Key(c) == Key(probe)
    ensures Wins(src, c, Key(probe), w, i) && WrittenUnder(src, w, i, Key(probe))
    ensures c.Enrichment? && Increasing(Less, c.tiers) && forall t :: t in c.tiers <==> t in TiersUnder(Stream(src), Key(probe))
  {
    hide Stream, Derive, Key, Writes, TiersUnder, Earlier, Ascending, Streamed;
    DerivedIsKeyed(src);
    assert Merged(Stream(src), c);
    KeyTellsFamily(c, probe);
    w, i := FirstInData(src, probe);
  }

  lemma WrittenIsStreamed(src: Source, w: Writing, i: Insertion, key: string)
    requires WrittenUnder(src, w, i, key)
    ensures InsertedClaim(src, w.service, src.topology.tiers[w.tier], w.signal, i) in Stream(src)
    ensures Streamed(Stream(src), key)
  {
    hide Key, Writes, Stream;
    var c := InsertedClaim(src, w.service, src.topology.tiers[w.tier], w.signal, i);
    DataStreamedExactly(src, c);
    assert Insertion(c.attribute, c.value) == i;
    assert LaneOf(BoundTo(src, w.tier), w.signal) != [] by { WritesInLane(src, BoundTo(src, w.tier), w.signal, w.entry, w.index, i); }
    assert BackedThrough(src, w.tier, c);
  }

  lemma WritesInLane(src: Source, b: Blueprint, signal: Signal, k: nat, n: nat, i: Insertion)
    requires Writes(src, b, signal, k, n, i)
    ensures k < |LaneOf(b, signal)|
  {
  }

  lemma TiersWritten(src: Source, probe: Claim, t: string)
    requires Keyed(src.topology) && probe.Enrichment?
    ensures t in TiersUnder(Stream(src), Key(probe)) <==> exists v, j :: WrittenUnder(src, v, j, Key(probe)) && v.tier == t
  {
    hide Key, Writes, Stream, TiersUnder;
    TiersUnderAre(Stream(src), Key(probe), t);
    if c :| c in Stream(src) && Key(c) == Key(probe) && t in Tiers(c) {
      KeyTellsFamily(c, probe);
      DataStreamedExactly(src, c);
      var id :| BackedThrough(src, id, c);
      var k: nat, n: nat :| Writes(src, BoundTo(src, id), c.signal, k, n, Insertion(c.attribute, c.value));
      assert c == InsertedClaim(src, c.service, src.topology.tiers[id], c.signal, Insertion(c.attribute, c.value));
      assert WrittenUnder(src, Writing(c.service, id, c.signal, k, n), Insertion(c.attribute, c.value), Key(probe));
    }
    if v, j :| WrittenUnder(src, v, j, Key(probe)) && v.tier == t {
      WrittenIsStreamed(src, v, j, Key(probe));
    }
  }
}
