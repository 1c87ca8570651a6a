/** Derivation of claims from the Intended config at one commit, keyed and
    merged, and the memo in front of it (internal/expectation/derive.go,
    memo.go). */
module ClaimDerivation {
  import opened Base
  import opened Verdicts
  import opened Topologies
  import References
  import opened Blueprints
  import opened Expectation

  datatype Source = Source(sha: string, topology: Topology, blueprints: map<string, Blueprint>, shared: Shared)

  // ---- the keyed collection ----------------------------------------------

  function Tiers(c: Claim): seq<string> {
    if c.SelfTelemetry? then [] else c.tiers
  }

  function TierSet(c: Claim): set<string> {
    Elements(Tiers(c))
  }

  /** Distinct, sorted. */
  function MergeTiers(a: seq<string>, b: seq<string>): seq<string> {
    Ascending(Elements(a) + Elements(b))
  }

  method MergeTiersLoop(a: seq<string>, b: seq<string>) returns (out: seq<string>)
    ensures out == MergeTiers(a, b)
  {
    var all := a + b;
    var seen: set<string> := {};
    for i := 0 to |all|
      invariant seen == Elements(all[..i])
    {
      assert all[..i + 1] == all[..i] + [all[i]];
      if all[i] !in seen { seen := seen + {all[i]}; }
    }
    assert all[..|all|] == all;
    assert seen == Elements(a) + Elements(b);
    out := Ascending(seen);
  }

  function Backing(c: Claim, tiers: seq<string>): Claim {
    if c.SelfTelemetry? then c else c.(tiers := tiers)
  }

  /** Where a key stands. */
  function Position(claims: seq<Claim>, key: string): (r: Option<nat>)
    ensures r.Some? ==> r.value < |claims| && Key(claims[r.value]) == key
  {
    if claims == [] then None
    else if Key(claims[|claims| - 1]) == key then Some(|claims| - 1)
    else Position(claims[..|claims| - 1], key)
  }

  lemma {:induction false} PositionFinds(claims: seq<Claim>, key: string)
    ensures Position(claims, key).None? <==> !Streamed(claims, key)
  {
    hide Key;
    if claims != [] {
      var n := |claims| - 1;
      assert claims == claims[..n] + [claims[n]];
      PositionFinds(claims[..n], key);
      assert claims[n] in claims;
    }
  }

  function AddClaim(claims: seq<Claim>, c: Claim): seq<Claim> {
    match Position(claims, Key(c))
    case Some(i) => claims[i := Backing(claims[i], MergeTiers(Tiers(claims[i]), Tiers(c)))]
    case None => claims + [c]
  }

  /** The set under construction: its claims and where each key stands. */
  class Builder {
    var claims: seq<Claim>
    var index: map<string, nat>

    ghost predicate Valid()
      reads this
    {
      Indexed(claims, index)
    }

    constructor ()
      ensures Valid() && claims == []
    {
      claims, index := [], map[];
    }

    method Add(c: Claim)
      requires Valid()
      modifies this
      ensures Valid() && claims == AddClaim(old(claims), c)
    {
      hide Key, Position, Backing, Indexed;
      var key := Key(c);
      PositionIndexed(claims, index, key);
      if key in index {
        var i := index[key];
        var tiers := MergeTiersLoop(Tiers(claims[i]), Tiers(c));
        BackingKeepsKey(claims[i], tiers);
        IndexedReplaced(claims, index, i, Backing(claims[i], tiers));
        claims := claims[i := Backing(claims[i], tiers)];
      } else {
        IndexedAppended(claims, index, c);
        index := index[key := |claims|];
        claims := claims + [c];
      }
    }
  }

  /** Every key's place, and no other. */
  ghost predicate Indexed(claims: seq<Claim>, index: map<string, nat>) {
    && (forall k :: k in index ==> index[k] < |claims| && Key(claims[index[k]]) == k)
    && (forall i :: 0 <= i < |claims| ==> Key(claims[i]) in index && index[Key(claims[i])] == i)
  }

  lemma PositionIndexed(claims: seq<Claim>, index: map<string, nat>, key: string)
    requires Indexed(claims, index)
    ensures Position(claims, key) == if key in index then Some(index[key]) else None
    ensures key in index ==> index[key] < |claims|
  {
    hide Key, Position;
    PositionFinds(claims, key);
    if key in index { assert claims[index[key]] in claims; }
  }

  lemma IndexedReplaced(claims: seq<Claim>, index: map<string, nat>, i: nat, c: Claim)
    requires Indexed(claims, index) && i < |claims| && Key(c) == Key(claims[i])
    ensures Indexed(claims[i := c], index)
  {
  }

  lemma IndexedAppended(claims: seq<Claim>, index: map<string, nat>, c: Claim)
    requires Indexed(claims, index) && Key(c) !in index
    ensures Indexed(claims + [c], index[Key(c) := |claims|])
  {
  }

  lemma BackingKeepsKey(c: Claim, tiers: seq<string>)
    ensures Key(Backing(c, tiers)) == Key(c)
  {
  }

  /** Everything added so far, merged by key. */
  function Collected(stream: seq<Claim>): seq<Claim> {
    if stream == [] then [] else AddClaim(Collected(stream[..|stream| - 1]), stream[|stream| - 1])
  }

  // ---- what the collection holds -----------------------------------------

  /** The Tiers of every claim added under a key. */
  function TiersUnder(stream: seq<Claim>, key: string): set<string> {
    if stream == [] then {}
    else
      var last := stream[|stream| - 1];
      TiersUnder(stream[..|stream| - 1], key) + if Key(last) == key then TierSet(last) else {}
  }

  ghost predicate Streamed(stream: seq<Claim>, key: string) {
    exists c :: c in stream && Key(c) == key
  }

  ghost predicate KeysDistinct(claims: seq<Claim>) {
    forall i, j :: 0 <= i < j < |claims| ==> Key(claims[i]) != Key(claims[j])
  }

  /** Data claims enter the stream backed by one Tier. */
  ghost predicate SingleTiers(stream: seq<Claim>) {
    forall c :: c in stream ==> |Tiers(c)| <= 1
  }

  /** The first claim added under a key. */
  ghost function FirstUnder(stream: seq<Claim>, key: string): (r: Option<Claim>)
    ensures r.Some? ==> r.value in stream && Key(r.value) == key
    ensures r.Some? <==> Streamed(stream, key)
  {
    if stream == [] then None
    else
      var n := |stream| - 1;
      var before := FirstUnder(stream[..n], key);
      assert stream == stream[..n] + [stream[n]];
      if before.Some? then before else if Key(stream[n]) == key then Some(stream[n]) else None
  }

  /** What a collected claim is: the first that was added under its key, backed
      by the sorted set of the Tiers of all that were. */
  ghost predicate Merged(stream: seq<Claim>, c: Claim) {
    && Streamed(stream, Key(c)) && Backing(FirstUnder(stream, Key(c)).value, []) == Backing(c, [])
    && Tiers(c) == Ascending(TiersUnder(stream, Key(c)))
  }

  lemma {:induction false} TiersUnderNothing(stream: seq<Claim>, key: string)
    requires !Streamed(stream, key)
    ensures TiersUnder(stream, key) == {}
  {
    hide Key;
    if stream != [] {
      var n := |stream| - 1;
      assert stream == stream[..n] + [stream[n]];
      assert stream[n] in stream;
      TiersUnderNothing(stream[..n], key);
    }
  }

  lemma StreamedMore(stream: seq<Claim>, c: Claim, key: string)
    ensures Streamed(stream + [c], key) <==> Streamed(stream, key) || Key(c) == key
    ensures TiersUnder(stream + [c], key) == TiersUnder(stream, key) + if Key(c) == key then TierSet(c) else {}
    ensures Streamed(stream, key) ==> FirstUnder(stream + [c], key) == FirstUnder(stream, key)
    ensures !Streamed(stream, key) && Key(c) == key ==> FirstUnder(stream + [c], key) == Some(c)
  {
    assert (stream + [c])[..|stream|] == stream;
  }

  lemma MergedMore(stream: seq<Claim>, c: Claim, held: Claim)
    requires Merged(stream, held) && Key(held) != Key(c)
    ensures Merged(stream + [c], held)
  {
    hide Key, Backing;
    StreamedMore(stream, c, Key(held));
  }

  lemma MergedWith(stream: seq<Claim>, c: Claim, held: Claim)
    requires Merged(stream, held) && Key(held) == Key(c)
    ensures Merged(stream + [c], Backing(held, MergeTiers(Tiers(held), Tiers(c))))
  {
    hide Key;
    StreamedMore(stream, c, Key(held));
    var grown := Backing(held, MergeTiers(Tiers(held), Tiers(c)));
    BackingKeepsKey(held, MergeTiers(Tiers(held), Tiers(c)));
    KeyTellsFamily(held, c);
    ElementsOfAscending(TiersUnder(stream, Key(held)));
    AscendingOfFew([]);
    hide Ascending, Elements, TiersUnder, Streamed, FirstUnder;
    assert TiersUnder(stream + [c], Key(held)) == Elements(Tiers(held)) + Elements(Tiers(c));
    if held.SelfTelemetry? {
      assert Tiers(c) == Tiers(held) == [];
      assert Elements([]) + Elements([]) == Elements([]);
    }
  }

  lemma MergedFirst(stream: seq<Claim>, c: Claim)
    requires !Streamed(stream, Key(c)) && |Tiers(c)| <= 1
    ensures Merged(stream + [c], c)
  {
    hide Key, Backing;
    TiersUnderNothing(stream, Key(c));
    StreamedMore(stream, c, Key(c));
    AscendingOfFew(Tiers(c));
  }

  /** Keys tell data claims from pipeline claims. */
  lemma KeyTellsFamily(c: Claim, d: Claim)
    requires Key(c) == Key(d)
    ensures c.SelfTelemetry? <==> d.SelfTelemetry?
    ensures c.Arrival? <==> d.Arrival?
  {
    assert Key(c)[0] == if c.Arrival? then 'a' else if c.Enrichment? then 'e' else 's';
    assert Key(d)[0] == if d.Arrival? then 'a' else if d.Enrichment? then 'e' else 's';
  }

  /** One claim per key added, each merged from all that shared it. */
  lemma {:induction false} CollectedMeans(stream: seq<Claim>)
    requires SingleTiers(stream)
    ensures KeysDistinct(Collected(stream))
    ensures forall c :: c in Collected(stream) ==> Merged(stream, c)
    ensures forall key :: Streamed(stream, key) ==> Streamed(Collected(stream), key)
  {
    hide Key, Merged, Backing, MergeTiers, Position;
    if stream != [] {
      var n := |stream| - 1;
      var before, c := stream[..n], stream[n];
      assert stream == before + [c];
      CollectedMeans(before);
      var held := Collected(before);
      var at := Position(held, Key(c));
      PositionFinds(held, Key(c));
      var now := Collected(stream);
      var i := if at.Some? then at.value else |held|;
      forall k | 0 <= k < |held| && k != i ensures Key(held[k]) != Key(c) {
        if at.Some? { assert Key(held[i]) == Key(c); } else { assert held[k] in held; }
      }
      forall k | 0 <= k < |held| && k != i ensures Merged(stream, held[k]) { MergedMore(before, c, held[k]); }
      if at.Some? {
        var grown := Backing(held[i], MergeTiers(Tiers(held[i]), Tiers(c)));
        BackingKeepsKey(held[i], MergeTiers(Tiers(held[i]), Tiers(c)));
        MergedWith(before, c, held[i]);
        assert now == held[i := grown];
      } else {
        MergedFirst(before, c);
        assert now == held + [c];
      }
      forall key | Streamed(stream, key) ensures Streamed(now, key) {
        StreamedMore(before, c, key);
        if Streamed(before, key) && key != Key(c) {
          var d :| d in held && Key(d) == key;
          var k :| 0 <= k < |held| && held[k] == d;
          assert now[k] == d;
        } else {
          assert Key(now[i]) == key;
          assert now[i] in now;
        }
      }
    }
  }

  // ---- what the artefact states ------------------------------------------

  /** Profiles are routed but nobody can judge them. */
  function Judgeable(lane: Lane): Option<Signal> {
    match lane
    case TracesLane => Some(Traces)
    case MetricsLane => Some(Metrics)
    case LogsLane => Some(Logs)
    case ProfilesLane => None
    case ExtensionsLane => None
  }

  /** Extensions have no pipeline join keys. */
  function ComponentKind(c: Class): Option<string> {
    match c
    case Receiver => Some("receiver")
    case Processor => Some("processor")
    case Exporter => Some("exporter")
    case Connector => Some("connector")
    case Extension => None
  }

  function ShapeOf(c: Component): Shape {
    if c.type_ == "memory_limiter" then Unidentified else Identified
  }

  function RenderedIDs(comps: seq<Component>): set<string> {
    set c | c in comps :: RenderedID(c)
  }

  /** The Components some references place, the first of each rendered id. */
  function Placed(shared: Shared, b: Blueprint, refs: seq<References.Reference>): seq<Component> {
    if refs == [] then []
    else
      var n := |refs| - 1;
      var before := Placed(shared, b, refs[..n]);
      match Resolve(shared, b, refs[n])
      case None => before
      case Some(c) => if RenderedID(c) in RenderedIDs(before) then before else before + [c]
  }

  predicate RenderedLess(a: Component, b: Component) {
    Less(RenderedID(a), RenderedID(b))
  }

  function Instantiated(shared: Shared, b: Blueprint): seq<Component> {
    Sort(RenderedLess, Placed(shared, b, b.traces + b.metrics + b.logs + b.profiles))
  }

  function PipelineClaims(src: Source, tier: Tier, comps: seq<Component>): seq<Claim> {
    if comps == [] then []
    else
      var n := |comps| - 1;
      PipelineClaims(src, tier, comps[..n]) +
        match ComponentKind(comps[n].class_)
        case None => []
        case Some(kind) => [SelfTelemetry(src.sha, tier.id, kind, RenderedID(comps[n]), ShapeOf(comps[n]))]
  }

  function PipelineStream(src: Source, ids: seq<string>): seq<Claim>
    requires forall id :: id in ids ==> id in src.topology.tiers
  {
    if ids == [] then []
    else
      var n := |ids| - 1;
      var tier := src.topology.tiers[ids[n]];
      PipelineStream(src, ids[..n]) +
        if tier.binding !in src.blueprints then []
        else PipelineClaims(src, tier, Instantiated(src.shared, src.blueprints[tier.binding]))
  }

  function InsertionClaims(src: Source, service: string, tier: Tier, signal: Signal, inserts: seq<Insertion>): seq<Claim> {
    if inserts == [] then []
    else
      var n := |inserts| - 1;
      InsertionClaims(src, service, tier, signal, inserts[..n])
        + [Enrichment(src.sha, service, tier.environment, signal, inserts[n].key, inserts[n].value, [tier.id])]
  }

  /** What a lane entry's Component literally inserts; only processors do. */
  function Inserts(src: Source, b: Blueprint, r: References.Reference, signal: Signal): seq<Insertion> {
    match Resolve(src.shared, b, r)
    case None => []
    case Some(c) => if c.class_.Processor? && signal in c.inserts then c.inserts[signal] else []
  }

  function EntryClaims(src: Source, service: string, tier: Tier, b: Blueprint, signal: Signal,
                       refs: seq<References.Reference>): seq<Claim> {
    if refs == [] then []
    else
      var n := |refs| - 1;
      EntryClaims(src, service, tier, b, signal, refs[..n])
        + InsertionClaims(src, service, tier, signal, Inserts(src, b, refs[n], signal))
  }

  /** A lane nobody authored states nothing. */
  function LaneClaims(src: Source, service: string, tier: Tier, b: Blueprint, lane: Lane): seq<Claim> {
    if Entries(b, lane) == [] || Judgeable(lane).None? then []
    else
      var signal := Judgeable(lane).value;
      [Arrival(src.sha, service, tier.environment, signal, [tier.id])]
        + EntryClaims(src, service, tier, b, signal, Entries(b, lane))
  }

  function LanesClaims(src: Source, service: string, tier: Tier, b: Blueprint, lanes: seq<Lane>): seq<Claim> {
    if lanes == [] then []
    else
      var n := |lanes| - 1;
      LanesClaims(src, service, tier, b, lanes[..n]) + LaneClaims(src, service, tier, b, lanes[n])
  }

  function TierClaims(src: Source, service: string, id: string): seq<Claim> {
    if id !in src.topology.tiers || src.topology.tiers[id].binding !in src.blueprints then []
    else
      var tier := src.topology.tiers[id];
      LanesClaims(src, service, tier, src.blueprints[tier.binding], SIGNAL_LANES)
  }

  function ServiceClaims(src: Source, service: string, ids: seq<string>): seq<Claim> {
    if ids == [] then []
    else
      var n := |ids| - 1;
      ServiceClaims(src, service, ids[..n]) + TierClaims(src, service, ids[n])
  }

  function Through(paths: seq<Path>): set<string> {
    set p, id | p in paths && id in p :: id
  }

  function TraversedTiers(svc: Service): seq<string> {
    Ascending(Through(svc.paths))
  }

  function DataStream(src: Source, ids: seq<string>): seq<Claim>
    requires forall id :: id in ids ==> id in src.topology.services
  {
    if ids == [] then []
    else
      var n := |ids| - 1;
      DataStream(src, ids[..n]) + ServiceClaims(src, ids[n], TraversedTiers(src.topology.services[ids[n]]))
  }

  /** Every claim derivation adds, in the order it adds them. */
  function Stream(src: Source): seq<Claim> {
    PipelineStream(src, Ascending(src.topology.tiers.Keys)) + DataStream(src, Ascending(src.topology.services.Keys))
  }

  predicate KeyLess(c: Claim, d: Claim) {
    Less(Key(c), Key(d))
  }

  function Derive(src: Source): Set {
    Set(src.sha, Sort(KeyLess, Collected(Stream(src))))
  }

  // ---- the loops that add them -------------------------------------------

  ghost predicate Holds(b: Builder, stream: seq<Claim>)
    reads b
  {
    b.Valid() && b.claims == Collected(stream)
  }

  lemma CollectedOneMore(stream: seq<Claim>, c: Claim)
    ensures Collected(stream + [c]) == AddClaim(Collected(stream), c)
  {
  }

  method AddOne(builder: Builder, c: Claim, ghost stream: seq<Claim>)
    requires Holds(builder, stream)
    modifies builder
    ensures Holds(builder, stream + [c])
  {
    hide AddClaim, Collected;
    CollectedOneMore(stream, c);
    builder.Add(c);
  }

  method PlacedLoop(shared: Shared, b: Blueprint) returns (out: seq<Component>)
    ensures out == Instantiated(shared, b)
  {
    hide Resolve, RenderedID;
    var refs := b.traces + b.metrics + b.logs + b.profiles;
    var seen: set<string> := {};
    out := [];
    for i := 0 to |refs|
      invariant out == Placed(shared, b, refs[..i])
      invariant seen == RenderedIDs(out)
    {
      assert refs[..i + 1][..i] == refs[..i];
      var comp := Resolve(shared, b, refs[i]);
      if comp.None? { continue; }
      var id := RenderedID(comp.value);
      if id in seen { continue; }
      RenderedOneMore(out, comp.value);
      seen := seen + {id};
      out := out + [comp.value];
    }
    assert refs[..|refs|] == refs;
    out := Sort(RenderedLess, out);
  }

  lemma RenderedOneMore(comps: seq<Component>, c: Component)
    ensures RenderedIDs(comps + [c]) == RenderedIDs(comps) + {RenderedID(c)}
  {
  }

  method FeedPipeline(builder: Builder, src: Source, tier: Tier, comps: seq<Component>, ghost stream: seq<Claim>)
    requires Holds(builder, stream)
    modifies builder
    ensures Holds(builder, stream + PipelineClaims(src, tier, comps))
  {
    hide Holds, RenderedID, ShapeOf;
    assert stream + [] == stream;
    for i := 0 to |comps|
      invariant Holds(builder, stream + PipelineClaims(src, tier, comps[..i]))
    {
      assert comps[..i + 1][..i] == comps[..i];
      ghost var sofar := stream + PipelineClaims(src, tier, comps[..i]);
      var kind := ComponentKind(comps[i].class_);
      if kind.None? {
        assert stream + PipelineClaims(src, tier, comps[..i + 1]) == sofar;
        continue;
      }
      var c := SelfTelemetry(src.sha, tier.id, kind.value, RenderedID(comps[i]), ShapeOf(comps[i]));
      AddOne(builder, c, sofar);
      assert stream + PipelineClaims(src, tier, comps[..i + 1]) == sofar + [c];
    }
    assert comps[..|comps|] == comps;
  }

  method FeedInsertions(builder: Builder, src: Source, service: string, tier: Tier, signal: Signal,
                        inserts: seq<Insertion>, ghost stream: seq<Claim>)
    requires Holds(builder, stream)
    modifies builder
    ensures Holds(builder, stream + InsertionClaims(src, service, tier, signal, inserts))
  {
    hide Holds;
    assert stream + [] == stream;
    for i := 0 to |inserts|
      invariant Holds(builder, stream + InsertionClaims(src, service, tier, signal, inserts[..i]))
    {
      assert inserts[..i + 1][..i] == inserts[..i];
      ghost var sofar := stream + InsertionClaims(src, service, tier, signal, inserts[..i]);
      var c := Enrichment(src.sha, service, tier.environment, signal, inserts[i].key, inserts[i].value, [tier.id]);
      AddOne(builder, c, sofar);
      assert stream + InsertionClaims(src, service, tier, signal, inserts[..i + 1]) == sofar + [c];
    }
    assert inserts[..|inserts|] == inserts;
  }

  method FeedEntries(builder: Builder, src: Source, service: string, tier: Tier, b: Blueprint, signal: Signal,
                     refs: seq<References.Reference>, ghost stream: seq<Claim>)
    requires Holds(builder, stream)
    modifies builder
    ensures Holds(builder, stream + EntryClaims(src, service, tier, b, signal, refs))
  {
    hide Holds, InsertionClaims, Inserts;
    assert stream + [] == stream;
    for i := 0 to |refs|
      invariant Holds(builder, stream + EntryClaims(src, service, tier, b, signal, refs[..i]))
    {
      assert refs[..i + 1][..i] == refs[..i];
      ghost var sofar := stream + EntryClaims(src, service, tier, b, signal, refs[..i]);
      var inserts := Inserts(src, b, refs[i], signal);
      FeedInsertions(builder, src, service, tier, signal, inserts, sofar);
      assert stream + EntryClaims(src, service, tier, b, signal, refs[..i + 1])
        == sofar + InsertionClaims(src, service, tier, signal, inserts);
    }
    assert refs[..|refs|] == refs;
  }

  method FeedLane(builder: Builder, src: Source, service: string, tier: Tier, b: Blueprint, lane: Lane, ghost stream: seq<Claim>)
    requires Holds(builder, stream)
    modifies builder
    ensures Holds(builder, stream + LaneClaims(src, service, tier, b, lane))
  {
    hide Holds, EntryClaims;
    var entries := Entries(b, lane);
    var signal := Judgeable(lane);
    if |entries| == 0 || signal.None? {
      assert stream + [] == stream;
      return;
    }
    var c := Arrival(src.sha, service, tier.environment, signal.value, [tier.id]);
    AddOne(builder, c, stream);
    FeedEntries(builder, src, service, tier, b, signal.value, entries, stream + [c]);
    ghost var more := EntryClaims(src, service, tier, b, signal.value, entries);
    assert stream + ([c] + more) == stream + [c] + more;
  }

  method FeedTier(builder: Builder, src: Source, service: string, id: string, ghost stream: seq<Claim>)
    requires Holds(builder, stream)
    modifies builder
    ensures Holds(builder, stream + TierClaims(src, service, id))
  {
    hide Holds, LaneClaims;
    assert stream + [] == stream;
    if id !in src.topology.tiers { return; }
    var tier := src.topology.tiers[id];
    if tier.binding !in src.blueprints { return; }
    var b := src.blueprints[tier.binding];
    for i := 0 to |SIGNAL_LANES|
      invariant Holds(builder, stream + LanesClaims(src, service, tier, b, SIGNAL_LANES[..i]))
    {
      assert SIGNAL_LANES[..i + 1][..i] == SIGNAL_LANES[..i];
      ghost var sofar := stream + LanesClaims(src, service, tier, b, SIGNAL_LANES[..i]);
      FeedLane(builder, src, service, tier, b, SIGNAL_LANES[i], sofar);
      assert stream + LanesClaims(src, service, tier, b, SIGNAL_LANES[..i + 1]) == sofar + LaneClaims(src, service, tier, b, SIGNAL_LANES[i]);
    }
    assert SIGNAL_LANES[..|SIGNAL_LANES|] == SIGNAL_LANES;
  }

  method TraversedTiersLoop(svc: Service) returns (out: seq<string>)
    ensures out == TraversedTiers(svc)
  {
    hide Ascending;
    var seen: set<string> := {};
    for i := 0 to |svc.paths|
      invariant seen == Through(svc.paths[..i])
    {
      var p := svc.paths[i];
      assert svc.paths[..i + 1] == svc.paths[..i] + [p];
      ghost var before := seen;
      for j := 0 to |p|
        invariant seen == before + Elements(p[..j])
      {
        assert p[..j + 1] == p[..j] + [p[j]];
        if p[j] !in seen { seen := seen + {p[j]}; }
      }
      assert p[..|p|] == p;
      assert p in svc.paths[..i + 1];
    }
    assert svc.paths[..|svc.paths|] == svc.paths;
    out := Ascending(seen);
  }

  method FeedService(builder: Builder, src: Source, service: string, ids: seq<string>, ghost stream: seq<Claim>)
    requires Holds(builder, stream)
    modifies builder
    ensures Holds(builder, stream + ServiceClaims(src, service, ids))
  {
    hide Holds, TierClaims;
    assert stream + [] == stream;
    for i := 0 to |ids|
      invariant Holds(builder, stream + ServiceClaims(src, service, ids[..i]))
    {
      assert ids[..i + 1][..i] == ids[..i];
      ghost var sofar := stream + ServiceClaims(src, service, ids[..i]);
      FeedTier(builder, src, service, ids[i], sofar);
      assert stream + ServiceClaims(src, service, ids[..i + 1]) == sofar + TierClaims(src, service, ids[i]);
    }
    assert ids[..|ids|] == ids;
  }

  method FeedTiers(builder: Builder, src: Source, ids: seq<string>)
    requires forall id :: id in ids ==> id in src.topology.tiers
    requires Holds(builder, [])
    modifies builder
    ensures Holds(builder, PipelineStream(src, ids))
  {
    hide Holds, PipelineClaims, Instantiated;
    for i := 0 to |ids|
      invariant Holds(builder, PipelineStream(src, ids[..i]))
    {
      assert ids[..i + 1][..i] == ids[..i];
      assert ids[i] in ids;
      var tier := src.topology.tiers[ids[i]];
      if tier.binding !in src.blueprints {
        assert PipelineStream(src, ids[..i + 1]) == PipelineStream(src, ids[..i]);
        continue;
      }
      var comps := PlacedLoop(src.shared, src.blueprints[tier.binding]);
      FeedPipeline(builder, src, tier, comps, PipelineStream(src, ids[..i]));
    }
    assert ids[..|ids|] == ids;
  }

  method FeedServices(builder: Builder, src: Source, ids: seq<string>, ghost stream: seq<Claim>)
    requires forall id :: id in ids ==> id in src.topology.services
    requires Holds(builder, stream)
    modifies builder
    ensures Holds(builder, stream + DataStream(src, ids))
  {
    hide Holds, ServiceClaims, TraversedTiers;
    assert stream + [] == stream;
    for i := 0 to |ids|
      invariant Holds(builder, stream + DataStream(src, ids[..i]))
    {
      assert ids[..i + 1][..i] == ids[..i];
      assert ids[i] in ids;
      ghost var sofar := stream + DataStream(src, ids[..i]);
      var tiers := TraversedTiersLoop(src.topology.services[ids[i]]);
      FeedService(builder, src, ids[i], tiers, sofar);
      assert stream + DataStream(src, ids[..i + 1]) == sofar + ServiceClaims(src, ids[i], tiers);
    }
    assert ids[..|ids|] == ids;
  }

  method DeriveLoop(src: Source) returns (s: Set)
    ensures s == Derive(src)
  {
    hide PipelineStream, DataStream, Collected, Ascending;
    var builder := new Builder();
    assert Collected([]) == [] by { NothingCollected(); }
    var tiers := Ascending(src.topology.tiers.Keys);
    var services := Ascending(src.topology.services.Keys);
    FeedTiers(builder, src, tiers);
    FeedServices(builder, src, services, PipelineStream(src, tiers));
    s := Set(src.sha, Sort(KeyLess, builder.claims));
  }

  lemma NothingCollected()
    ensures Collected([]) == []
  {
  }
}
