/** Pinned Component references against the versions at head: the ones that
    point past head are reference findings (internal/blueprint/findings.go),
    the ones behind it are drift (internal/drift/drift.go). */
module Pins {
  import opened Base
  import opened Numbers
  import opened References
  import opened Blueprints

  // ---- reference findings ------------------------------------------------

  datatype Problem = Dangling | AheadOfHead(version: int) | NotAnExtension | AnExtension

  datatype ReferenceFinding = ReferenceFinding(blueprint: string, lane: Lane, ref: Reference, problem: Problem)

  function EntryFindings(shared: Shared, b: Blueprint, lane: Lane, r: Reference): seq<ReferenceFinding> {
    match Resolve(shared, b, r)
    case None => [ReferenceFinding(b.id, lane, r, Dangling)]
    case Some(c) =>
      (if r.pin > c.version then [ReferenceFinding(b.id, lane, r, AheadOfHead(c.version))] else [])
      + (if lane.ExtensionsLane? && !c.class_.Extension? then [ReferenceFinding(b.id, lane, r, NotAnExtension)]
         else if !lane.ExtensionsLane? && c.class_.Extension? then [ReferenceFinding(b.id, lane, r, AnExtension)]
         else [])
  }

  function LaneFindings(shared: Shared, b: Blueprint, lane: Lane, entries: seq<Reference>): seq<ReferenceFinding> {
    if entries == [] then []
    else
      var n := |entries| - 1;
      LaneFindings(shared, b, lane, entries[..n]) + EntryFindings(shared, b, lane, entries[n])
  }

  function BlueprintFindings(shared: Shared, b: Blueprint, lanes: seq<Lane>): seq<ReferenceFinding> {
    if lanes == [] then []
    else
      var n := |lanes| - 1;
      BlueprintFindings(shared, b, lanes[..n]) + LaneFindings(shared, b, lanes[n], Entries(b, lanes[n]))
  }

  function AllFindings(shared: Shared, blueprints: seq<Blueprint>): seq<ReferenceFinding> {
    if blueprints == [] then []
    else
      var n := |blueprints| - 1;
      AllFindings(shared, blueprints[..n]) + BlueprintFindings(shared, blueprints[n], LANES)
  }

  method EntryFindingsStep(shared: Shared, b: Blueprint, lane: Lane, r: Reference, before: seq<ReferenceFinding>)
    returns (out: seq<ReferenceFinding>)
    ensures out == before + EntryFindings(shared, b, lane, r)
  {
    hide Resolve;
    out := before;
    var c := Resolve(shared, b, r);
    if c.None? {
      return out + [ReferenceFinding(b.id, lane, r, Dangling)];
    }
    if r.pin > c.value.version {
      out := out + [ReferenceFinding(b.id, lane, r, AheadOfHead(c.value.version))];
    }
    if lane.ExtensionsLane? && !c.value.class_.Extension? {
      out := out + [ReferenceFinding(b.id, lane, r, NotAnExtension)];
    } else if !lane.ExtensionsLane? && c.value.class_.Extension? {
      out := out + [ReferenceFinding(b.id, lane, r, AnExtension)];
    }
  }

  /** Every entry of one lane. */
  method LaneFindingsLoop(shared: Shared, b: Blueprint, lane: Lane, before: seq<ReferenceFinding>)
    returns (out: seq<ReferenceFinding>)
    ensures out == before + LaneFindings(shared, b, lane, Entries(b, lane))
  {
    hide EntryFindings, Entries;
    var entries := Entries(b, lane);
    out := before;
    for k := 0 to |entries|
      invariant out == before + LaneFindings(shared, b, lane, entries[..k])
    {
      assert entries[..k + 1][..k] == entries[..k];
      out := EntryFindingsStep(shared, b, lane, entries[k], out);
    }
    assert entries[..|entries|] == entries;
  }

  /** The three nested loops, Blueprints in id order. */
  method ReferenceFindings(shared: Shared, blueprints: seq<Blueprint>) returns (out: seq<ReferenceFinding>)
    ensures out == AllFindings(shared, blueprints)
  {
    hide LaneFindings, Entries;
    out := [];
    for i := 0 to |blueprints|
      invariant out == AllFindings(shared, blueprints[..i])
    {
      var b := blueprints[i];
      assert blueprints[..i + 1][..i] == blueprints[..i];
      ghost var start := out;
      for j := 0 to |LANES|
        invariant out == start + BlueprintFindings(shared, b, LANES[..j])
      {
        assert LANES[..j + 1][..j] == LANES[..j];
        out := LaneFindingsLoop(shared, b, LANES[j], out);
      }
      assert LANES[..|LANES|] == LANES;
    }
    assert blueprints[..|blueprints|] == blueprints;
  }

  // ---- pin drift ---------------------------------------------------------

  datatype PinFinding = PinFinding(ref: Reference, head: int, lanes: seq<Lane>)

  /** A shared, pinned, non-tracking reference behind its owner's head. */
  predicate Behind(shared: Shared, r: Reference) {
    !r.Local() && !r.track && r.pin != 0 && r.ID() in shared && r.pin < shared[r.ID()].version
  }

  /** One place a reference stands: its lane and itself. */
  datatype Place = Place(lane: Lane, ref: Reference)

  function PlacesIn(lane: Lane, entries: seq<Reference>): (r: seq<Place>)
    ensures |r| == |entries|
    ensures forall i :: 0 <= i < |r| ==> r[i] == Place(lane, entries[i])
  {
    seq(|entries|, i requires 0 <= i < |entries| => Place(lane, entries[i]))
  }

  function PlacesOf(b: Blueprint, lanes: seq<Lane>): seq<Place> {
    if lanes == [] then []
    else
      var n := |lanes| - 1;
      PlacesOf(b, lanes[..n]) + PlacesIn(lanes[n], Entries(b, lanes[n]))
  }

  /** Every lane entry of a Blueprint, lanes in order. */
  function Places(b: Blueprint): seq<Place> {
    PlacesOf(b, LANES)
  }

  /** The lanes that carry this reference behind head, once per entry. */
  function LanesWith(shared: Shared, places: seq<Place>, key: string): seq<Lane> {
    if places == [] then []
    else
      var n := |places| - 1;
      LanesWith(shared, places[..n], key)
        + if Behind(shared, places[n].ref) && places[n].ref.String() == key then [places[n].lane] else []
  }

  /** The printed references behind head, in order of first appearance. */
  function KeysBehind(shared: Shared, places: seq<Place>): seq<string> {
    if places == [] then []
    else
      var n := |places| - 1;
      var before := KeysBehind(shared, places[..n]);
      var key := places[n].ref.String();
      if Behind(shared, places[n].ref) && key !in before then before + [key] else before
  }

  datatype Standing = Standing(ref: Reference, head: int, lanes: seq<Lane>)

  ghost predicate Mentioned(places: seq<Place>, r: Reference) {
    exists p :: p in places && p.ref == r
  }

  /** What is remembered of one printed reference after some places. */
  ghost predicate Stands(shared: Shared, places: seq<Place>, key: string, s: Standing) {
    && s.ref.String() == key
    && Behind(shared, s.ref)
    && Mentioned(places, s.ref)
    && s.head == shared[s.ref.ID()].version
    && s.lanes == LanesWith(shared, places, key)
  }

  /** What the two bookkeeping variables hold after some places. */
  ghost predicate Kept(shared: Shared, places: seq<Place>, seen: map<string, Standing>, order: seq<string>) {
    && order == KeysBehind(shared, places)
    && (forall k :: k in seen <==> k in order)
    && forall k :: k in seen ==> Stands(shared, places, k, seen[k])
  }

  lemma LanesWithOneMore(shared: Shared, places: seq<Place>, p: Place, key: string)
    ensures LanesWith(shared, places + [p], key)
      == LanesWith(shared, places, key) + if Behind(shared, p.ref) && p.ref.String() == key then [p.lane] else []
  {
    hide Behind, Reference.String;
    assert (places + [p])[..|places|] == places;
  }

  /** A place that is not this reference behind head leaves its standing be. */
  lemma StandsStill(shared: Shared, places: seq<Place>, p: Place, key: string, s: Standing)
    requires Stands(shared, places, key, s)
    requires !Behind(shared, p.ref) || p.ref.String() != key
    ensures Stands(shared, places + [p], key, s)
  {
    hide Behind, Reference.String, Reference.ID, LanesWith;
    LanesWithOneMore(shared, places, p, key);
    MentionedStill(places, p, s.ref);
  }

  lemma StandsGrown(shared: Shared, places: seq<Place>, p: Place, s: Standing)
    requires Behind(shared, p.ref)
    requires Stands(shared, places, p.ref.String(), s)
    ensures Stands(shared, places + [p], p.ref.String(), s.(lanes := s.lanes + [p.lane]))
  {
    hide Behind, Reference.String, Reference.ID, LanesWith;
    LanesWithOneMore(shared, places, p, p.ref.String());
    MentionedStill(places, p, s.ref);
  }

  lemma StandsFirst(shared: Shared, places: seq<Place>, p: Place)
    requires Behind(shared, p.ref)
    requires p.ref.String() !in KeysBehind(shared, places)
    ensures Stands(shared, places + [p], p.ref.String(), Standing(p.ref, shared[p.ref.ID()].version, [p.lane]))
  {
    hide Reference.String, LanesWith, KeysBehind;
    NoLanesYet(shared, places, p.ref.String());
    LanesWithOneMore(shared, places, p, p.ref.String());
    assert p in places + [p];
  }

  method NoteBehind(shared: Shared, ghost places: seq<Place>, p: Place, seen: map<string, Standing>, order: seq<string>)
    returns (seen': map<string, Standing>, order': seq<string>)
    requires Kept(shared, places, seen, order)
    ensures Kept(shared, places + [p], seen', order')
  {
    hide Reference.String, Reference.ID, Stands;
    seen', order' := seen, order;
    assert (places + [p])[..|places|] == places;
    var key := p.ref.String();
    forall k | k in seen && (!Behind(shared, p.ref) || k != key) ensures Stands(shared, places + [p], k, seen[k]) {
      StandsStill(shared, places, p, k, seen[k]);
    }
    if p.ref.Local() || p.ref.track || p.ref.pin == 0 { return; }
    if p.ref.ID() !in shared || p.ref.pin >= shared[p.ref.ID()].version { return; }
    if key !in seen {
      StandsFirst(shared, places, p);
      assert [] + [p.lane] == [p.lane];
      seen' := seen'[key := Standing(p.ref, shared[p.ref.ID()].version, [])];
      order' := order' + [key];
    } else {
      StandsGrown(shared, places, p, seen[key]);
    }
    seen' := seen'[key := seen'[key].(lanes := seen'[key].lanes + [p.lane])];
    assert seen'.Keys == seen.Keys + {key};
  }

  lemma MentionedStill(places: seq<Place>, p: Place, r: Reference)
    requires Mentioned(places, r)
    ensures Mentioned(places + [p], r)
  {
    var q :| q in places && q.ref == r;
    assert q in places + [p];
  }

  lemma {:induction false} NoLanesYet(shared: Shared, places: seq<Place>, key: string)
    ensures key !in KeysBehind(shared, places) <==> LanesWith(shared, places, key) == []
  {
    hide Behind;
    if places != [] { NoLanesYet(shared, places[..|places| - 1], key); }
  }

  ghost predicate IsPinDrift(shared: Shared, b: Blueprint, out: seq<PinFinding>) {
    && |out| == |KeysBehind(shared, Places(b))|
    && forall i :: 0 <= i < |out| ==>
      && out[i].ref.String() == KeysBehind(shared, Places(b))[i]
      && Behind(shared, out[i].ref)
      && Mentioned(Places(b), out[i].ref)
      && out[i].head == shared[out[i].ref.ID()].version
      && out[i].lanes == LanesWith(shared, Places(b), out[i].ref.String())
  }

  /** One finding per pinned reference behind head, listing its lanes. */
  method PinDrift(shared: Shared, b: Blueprint) returns (out: seq<PinFinding>)
    ensures IsPinDrift(shared, b, out)
  {
    hide Behind, Reference.String, Entries, KeysBehind, LanesWith;
    var seen: map<string, Standing>, order: seq<string> := map[], [];
    assert Kept(shared, [], seen, order) by { KeptAtFirst(shared); }
    for j := 0 to |LANES|
      invariant Kept(shared, PlacesOf(b, LANES[..j]), seen, order)
    {
      assert LANES[..j + 1][..j] == LANES[..j];
      var entries := Entries(b, LANES[j]);
      ghost var before := PlacesOf(b, LANES[..j]);
      ghost var here := PlacesIn(LANES[j], entries);
      assert before + here[..0] == before;
      for k := 0 to |entries|
        invariant Kept(shared, before + here[..k], seen, order)
      {
        assert before + here[..k + 1] == before + here[..k] + [here[k]];
        seen, order := NoteBehind(shared, before + here[..k], Place(LANES[j], entries[k]), seen, order);
      }
      assert here[..|entries|] == here;
    }
    assert LANES[..|LANES|] == LANES;
    out := [];
    for i := 0 to |order|
      invariant |out| == i
      invariant forall k :: 0 <= k < i ==> order[k] in seen && out[k] == PinFinding(seen[order[k]].ref, seen[order[k]].head, seen[order[k]].lanes)
    {
      assert order[i] in order;
      out := out + [PinFinding(seen[order[i]].ref, seen[order[i]].head, seen[order[i]].lanes)];
    }
  }

  lemma KeptAtFirst(shared: Shared)
    ensures Kept(shared, [], map[], [])
  {
  }

  // ---- every resolved pin is ahead, behind, or at head -------------------

  /** The references are what the parser gave, tracking marked afterwards. */
  ghost predicate Loaded(b: Blueprint) {
    forall p :: p in Places(b) ==> WellFormed(p.ref.(track := false))
  }

  /** A shared, pinned, non-tracking reference that resolves. */
  predicate ResolvedPin(shared: Shared, r: Reference) {
    !r.Local() && !r.track && r.pin > 0 && r.ID() in shared
  }

  /** The lanes of the entries that are this very reference, in order. */
  function LanesOf(places: seq<Place>, r: Reference): seq<Lane> {
    if places == [] then []
    else
      var n := |places| - 1;
      LanesOf(places[..n], r) + if places[n].ref == r then [places[n].lane] else []
  }

  lemma PrintedPinsDiffer(r: Reference, q: Reference)
    requires WellFormed(r) && WellFormed(q)
    ensures r.String() == q.String() ==> r == q
  {
    ReferenceRoundTrip(r);
    ReferenceRoundTrip(q);
  }

  lemma {:induction false} LanesWithAre(shared: Shared, places: seq<Place>, r: Reference)
    requires Behind(shared, r) && WellFormed(r)
    requires forall p :: p in places ==> WellFormed(p.ref.(track := false))
    ensures LanesWith(shared, places, r.String()) == LanesOf(places, r)
  {
    hide Reference.String, Reference.ID, WellFormed;
    if places != [] {
      var n := |places| - 1;
      assert places == places[..n] + [places[n]];
      LanesWithAre(shared, places[..n], r);
      assert places[n] in places;
      var q := places[n].ref;
      if Behind(shared, q) {
        assert q.(track := false) == q;
        PrintedPinsDiffer(q, r);
      }
    }
  }

  lemma {:induction false} KeysBehindAre(shared: Shared, places: seq<Place>, key: string)
    ensures key in KeysBehind(shared, places) <==>
      exists p :: p in places && Behind(shared, p.ref) && p.ref.String() == key
    ensures Distinct(KeysBehind(shared, places))
  {
    hide Behind, Reference.String;
    if places != [] {
      var n := |places| - 1;
      assert places == places[..n] + [places[n]];
      KeysBehindAre(shared, places[..n], key);
    }
  }

  lemma EntryFindingsName(shared: Shared, b: Blueprint, lane: Lane, r: Reference, f: ReferenceFinding)
    requires f in EntryFindings(shared, b, lane, r)
    ensures f.lane == lane && f.ref == r
  {
    hide Resolve;
  }

  lemma {:induction false} LaneFindingsAre(shared: Shared, b: Blueprint, lane: Lane, entries: seq<Reference>, f: ReferenceFinding)
    ensures f in LaneFindings(shared, b, lane, entries) <==>
      f.lane == lane && f.ref in entries && f in EntryFindings(shared, b, lane, f.ref)
  {
    hide EntryFindings;
    if entries != [] {
      var n := |entries| - 1;
      assert entries == entries[..n] + [entries[n]];
      LaneFindingsAre(shared, b, lane, entries[..n], f);
      if f in EntryFindings(shared, b, lane, entries[n]) { EntryFindingsName(shared, b, lane, entries[n], f); }
    }
  }

  lemma {:induction false} BlueprintFindingsAre(shared: Shared, b: Blueprint, lanes: seq<Lane>, f: ReferenceFinding)
    ensures f in BlueprintFindings(shared, b, lanes) <==>
      Place(f.lane, f.ref) in PlacesOf(b, lanes) && f in EntryFindings(shared, b, f.lane, f.ref)
  {
    hide EntryFindings, Entries;
    if lanes != [] {
      var n := |lanes| - 1;
      BlueprintFindingsAre(shared, b, lanes[..n], f);
      var entries := Entries(b, lanes[n]);
      LaneFindingsAre(shared, b, lanes[n], entries, f);
      var here := PlacesIn(lanes[n], entries);
      if f.lane == lanes[n] && f.ref in entries {
        var i :| 0 <= i < |entries| && entries[i] == f.ref;
        assert here[i] == Place(f.lane, f.ref);
      }
      if Place(f.lane, f.ref) in here {
        var i :| 0 <= i < |here| && here[i] == Place(f.lane, f.ref);
        assert entries[i] == f.ref;
      }
    }
  }

  /** Exactly the problems of the references that stand somewhere. */
  lemma {:induction false} FindingsAre(shared: Shared, blueprints: seq<Blueprint>, f: ReferenceFinding)
    ensures f in AllFindings(shared, blueprints) <==>
      exists b :: b in blueprints && Place(f.lane, f.ref) in Places(b) && f in EntryFindings(shared, b, f.lane, f.ref)
  {
    hide EntryFindings, PlacesOf;
    if blueprints != [] {
      var n := |blueprints| - 1;
      assert blueprints == blueprints[..n] + [blueprints[n]];
      FindingsAre(shared, blueprints[..n], f);
      BlueprintFindingsAre(shared, blueprints[n], LANES, f);
    }
  }

  lemma AheadIsReported(shared: Shared, blueprints: seq<Blueprint>, b: Blueprint, p: Place, version: int)
    requires b in blueprints && p in Places(b) && ResolvedPin(shared, p.ref)
    ensures ReferenceFinding(b.id, p.lane, p.ref, AheadOfHead(version)) in AllFindings(shared, blueprints) <==>
      version == shared[p.ref.ID()].version && p.ref.pin > version
  {
    hide Places, Reference.ID;
    var f := ReferenceFinding(b.id, p.lane, p.ref, AheadOfHead(version));
    FindingsAre(shared, blueprints, f);
    assert Place(f.lane, f.ref) == p;
    forall a: Blueprint ensures f in EntryFindings(shared, a, f.lane, f.ref) ==>
        version == shared[p.ref.ID()].version && p.ref.pin > version {}
    if version == shared[p.ref.ID()].version && p.ref.pin > version {
      assert EntryFindings(shared, b, f.lane, f.ref)[0] == f;
    }
  }

  lemma BehindIsReportedOnce(shared: Shared, b: Blueprint, out: seq<PinFinding>, p: Place)
    requires Loaded(b) && IsPinDrift(shared, b, out)
    requires p in Places(b) && ResolvedPin(shared, p.ref)
    ensures (exists i :: 0 <= i < |out| && out[i].ref == p.ref) <==> p.ref.pin < shared[p.ref.ID()].version
    ensures forall i, j :: 0 <= i < |out| && 0 <= j < |out| && out[i].ref == p.ref && out[j].ref == p.ref ==> i == j
    ensures forall i :: 0 <= i < |out| && out[i].ref == p.ref ==>
      out[i].head == shared[p.ref.ID()].version && out[i].lanes == LanesOf(Places(b), p.ref)
  {
    hide Places, WellFormed, Reference.String, Reference.ID;
    var places := Places(b);
    var keys := KeysBehind(shared, places);
    KeysBehindAre(shared, places, p.ref.String());
    assert p.ref.(track := false) == p.ref;
    if p.ref.pin < shared[p.ref.ID()].version {
      assert p.ref.String() in keys;
      var i :| 0 <= i < |keys| && keys[i] == p.ref.String();
      KeysBehindAre(shared, places, keys[i]);
      BehindOutIsPlaced(shared, b, out, i);
      PrintedPinsDiffer(out[i].ref, p.ref);
      LanesWithAre(shared, places, p.ref);
    }
  }

  lemma BehindOutIsPlaced(shared: Shared, b: Blueprint, out: seq<PinFinding>, i: nat)
    requires Loaded(b) && IsPinDrift(shared, b, out) && i < |out|
    ensures WellFormed(out[i].ref)
  {
    hide Places, WellFormed;
    var p :| p in Places(b) && p.ref == out[i].ref;
    assert p.ref.(track := false) == p.ref;
  }

  /** Every resolved shared pin is exactly one of: ahead of head, and then a
      reference finding at its place; behind head, and then in exactly one
      drift finding, which lists that reference's lanes in order; at head,
      and then in neither. */
  lemma PinPartition(shared: Shared, blueprints: seq<Blueprint>, b: Blueprint, out: seq<PinFinding>, p: Place)
    requires b in blueprints && Loaded(b) && IsPinDrift(shared, b, out)
    requires p in Places(b) && ResolvedPin(shared, p.ref)
    ensures var head := shared[p.ref.ID()].version;
            var ahead := ReferenceFinding(b.id, p.lane, p.ref, AheadOfHead(head)) in AllFindings(shared, blueprints);
            var behind := exists i :: 0 <= i < |out| && out[i].ref == p.ref;
            && (ahead <==> p.ref.pin > head)
            && (behind <==> p.ref.pin < head)
            && (!ahead && !behind <==> p.ref.pin == head)
    ensures forall i, j :: 0 <= i < |out| && 0 <= j < |out| && out[i].ref == p.ref && out[j].ref == p.ref ==> i == j
    ensures forall i :: 0 <= i < |out| && out[i].ref == p.ref ==> out[i].lanes == LanesOf(Places(b), p.ref)
  {
    hide Places, Behind, Reference.ID, Reference.String;
    AheadIsReported(shared, blueprints, b, p, shared[p.ref.ID()].version);
    BehindIsReportedOnce(shared, b, out, p);
  }

  // ---- over the authored lanes ---------------------------------------------

  ghost function LaneEntries(b: Blueprint, lane: Lane): seq<Reference> {
    match lane
    case TracesLane => b.traces
    case MetricsLane => b.metrics
    case LogsLane => b.logs
    case ProfilesLane => b.profiles
    case ExtensionsLane => b.extensions
  }

  /** The problem a reference has in its lane: it finds nothing, or its pin is
      past the version of what it finds, or that is an extension outside the
      extensions block or something else inside it. */
  ghost predicate Ails(shared: Shared, b: Blueprint, f: ReferenceFinding) {
    && f.blueprint == b.id
    && match f.problem
       case Dangling => forall m :: !Finds(shared, b, f.ref, m)
       case AheadOfHead(version) => f.ref.pin > version && exists m :: Finds(shared, b, f.ref, m) && m.version == version
       case NotAnExtension => f.lane == ExtensionsLane && exists m :: Finds(shared, b, f.ref, m) && m.class_ != Extension
       case AnExtension => f.lane != ExtensionsLane && exists m :: Finds(shared, b, f.ref, m) && m.class_ == Extension
  }

  /** One entry's findings: exactly its problems, each once. */
  lemma EntryFindingsAre(shared: Shared, b: Blueprint, lane: Lane, r: Reference, f: ReferenceFinding)
    ensures f in EntryFindings(shared, b, lane, r) <==> f.lane == lane && f.ref == r && Ails(shared, b, f)
    ensures Distinct(EntryFindings(shared, b, lane, r))
  {
    forall m ensures Resolve(shared, b, r) == Some(m) <==> Finds(shared, b, r, m) { FindsIs(shared, b, r, m); }
    EntryFindingsOnce(shared, b, lane, r);
    if f.lane == lane && f.ref == r {
      hide Finds, Distinct;
      match Resolve(shared, b, r)
      case None => NothingFound(shared, b, f);
      case Some(c) => OneFound(shared, b, f, c);
    } else {
      hide *;
      FindingsNameTheirEntry(shared, b, lane, r, f);
    }
  }

  lemma EntryFindingsOnce(shared: Shared, b: Blueprint, lane: Lane, r: Reference)
    ensures Distinct(EntryFindings(shared, b, lane, r))
  {
    hide Resolve;
  }

  lemma FindingsNameTheirEntry(shared: Shared, b: Blueprint, lane: Lane, r: Reference, f: ReferenceFinding)
    ensures f in EntryFindings(shared, b, lane, r) ==> f.lane == lane && f.ref == r
  {
    hide Resolve;
  }

  lemma NothingFound(shared: Shared, b: Blueprint, f: ReferenceFinding)
    requires forall m :: Resolve(shared, b, f.ref) == Some(m) <==> Finds(shared, b, f.ref, m)
    requires Resolve(shared, b, f.ref) == None
    ensures f in EntryFindings(shared, b, f.lane, f.ref) <==> Ails(shared, b, f)
  {
    hide Resolve, Finds;
    assert forall m :: !Finds(shared, b, f.ref, m);
  }

  lemma OneFound(shared: Shared, b: Blueprint, f: ReferenceFinding, c: Component)
    requires forall m :: Resolve(shared, b, f.ref) == Some(m) <==> Finds(shared, b, f.ref, m)
    requires Resolve(shared, b, f.ref) == Some(c)
    ensures f in EntryFindings(shared, b, f.lane, f.ref) <==> Ails(shared, b, f)
  {
    hide Resolve, Finds;
    assert Finds(shared, b, f.ref, c);
  }

  ghost function TimesIn(entries: seq<Reference>, r: Reference): nat {
    multiset(entries)[r]
  }

  /** How many entries of the lanes have exactly this to report. */
  ghost function Times(shared: Shared, blueprints: seq<Blueprint>, f: ReferenceFinding): nat {
    if blueprints == [] then 0
    else
      var b := blueprints[|blueprints| - 1];
      Times(shared, blueprints[..|blueprints| - 1], f) + if Ails(shared, b, f) then TimesIn(LaneEntries(b, f.lane), f.ref) else 0
  }

  lemma {:induction false} LaneFindingsCount(shared: Shared, b: Blueprint, lane: Lane, entries: seq<Reference>, f: ReferenceFinding)
    ensures multiset(LaneFindings(shared, b, lane, entries))[f] == if f.lane == lane && Ails(shared, b, f) then TimesIn(entries, f.ref) else 0
  {
    hide Ails, EntryFindings;
    if entries != [] {
      var n := |entries| - 1;
      assert entries == entries[..n] + [entries[n]];
      LaneFindingsCount(shared, b, lane, entries[..n], f);
      EntryFindingsAre(shared, b, lane, entries[n], f);
      DistinctIsMultiplicityOne(EntryFindings(shared, b, lane, entries[n]));
      assert f in EntryFindings(shared, b, lane, entries[n]) <==> f in multiset(EntryFindings(shared, b, lane, entries[n]));
    }
  }

  lemma BlueprintFindingsSplit(shared: Shared, b: Blueprint, f: ReferenceFinding)
    ensures multiset(BlueprintFindings(shared, b, LANES))[f] ==
      multiset(LaneFindings(shared, b, TracesLane, b.traces))[f] + multiset(LaneFindings(shared, b, MetricsLane, b.metrics))[f]
      + multiset(LaneFindings(shared, b, LogsLane, b.logs))[f] + multiset(LaneFindings(shared, b, ProfilesLane, b.profiles))[f]
      + multiset(LaneFindings(shared, b, ExtensionsLane, b.extensions))[f]
  {
    hide LaneFindings;
    assert LANES[..4] == [TracesLane, MetricsLane, LogsLane, ProfilesLane];
    assert LANES[..4][..3] == [TracesLane, MetricsLane, LogsLane];
    assert LANES[..4][..3][..2] == [TracesLane, MetricsLane];
    assert LANES[..4][..3][..2][..1] == [TracesLane];
    assert [TracesLane][..0] == [];
    BlueprintFindingsStep(shared, b, LANES);
    BlueprintFindingsStep(shared, b, LANES[..4]);
    BlueprintFindingsStep(shared, b, LANES[..4][..3]);
    BlueprintFindingsStep(shared, b, LANES[..4][..3][..2]);
    BlueprintFindingsStep(shared, b, [TracesLane]);
    hide BlueprintFindings;
  }

  lemma BlueprintFindingsStep(shared: Shared, b: Blueprint, lanes: seq<Lane>)
    requires lanes != []
    ensures BlueprintFindings(shared, b, lanes) ==
      BlueprintFindings(shared, b, lanes[..|lanes| - 1]) + LaneFindings(shared, b, lanes[|lanes| - 1], Entries(b, lanes[|lanes| - 1]))
    ensures BlueprintFindings(shared, b, []) == []
  {
    hide LaneFindings, Entries;
  }

  /** A finding is reported once for every lane entry that has that problem, and
      for no other. */
  lemma {:induction false} FindingsExactly(shared: Shared, blueprints: seq<Blueprint>, f: ReferenceFinding)
    ensures multiset(AllFindings(shared, blueprints))[f] == Times(shared, blueprints, f)
  {
    hide Ails, LaneFindings, BlueprintFindings;
    if blueprints != [] {
      var n := |blueprints| - 1;
      var b := blueprints[n];
      assert blueprints == blueprints[..n] + [b];
      FindingsExactly(shared, blueprints[..n], f);
      BlueprintFindingsSplit(shared, b, f);
      LaneFindingsCount(shared, b, TracesLane, b.traces, f);
      LaneFindingsCount(shared, b, MetricsLane, b.metrics, f);
      LaneFindingsCount(shared, b, LogsLane, b.logs, f);
      LaneFindingsCount(shared, b, ProfilesLane, b.profiles, f);
      LaneFindingsCount(shared, b, ExtensionsLane, b.extensions, f);
      hide TimesIn;
    }
  }

  // the drift of one Blueprint

  /** A qualified, pinned reference that does not track, to a shared Component
      whose version has passed the pin. */
  ghost predicate Lags(shared: Shared, r: Reference) {
    && r.team != "" && !r.track && r.pin != 0
    && r.team + "/" + r.name in shared && r.pin < shared[r.team + "/" + r.name].version
  }

  lemma LagsIs(shared: Shared, r: Reference)
    ensures Behind(shared, r) <==> Lags(shared, r)
  {
  }

  /** The entries of every lane, lane after lane. */
  ghost function AllPlaces(b: Blueprint): seq<Place> {
    PlacesIn(TracesLane, b.traces) + PlacesIn(MetricsLane, b.metrics) + PlacesIn(LogsLane, b.logs)
    + PlacesIn(ProfilesLane, b.profiles) + PlacesIn(ExtensionsLane, b.extensions)
  }

  lemma PlacesAre(b: Blueprint)
    ensures Places(b) == AllPlaces(b)
  {
    hide PlacesIn;
    assert LANES[..4] == [TracesLane, MetricsLane, LogsLane, ProfilesLane];
    assert LANES[..4][..3] == [TracesLane, MetricsLane, LogsLane];
    assert LANES[..4][..3][..2] == [TracesLane, MetricsLane];
    assert LANES[..4][..3][..2][..1] == [TracesLane];
    assert [TracesLane][..0] == [];
    PlacesStep(b, LANES);
    PlacesStep(b, LANES[..4]);
    PlacesStep(b, LANES[..4][..3]);
    PlacesStep(b, LANES[..4][..3][..2]);
    PlacesStep(b, [TracesLane]);
  }

  lemma PlacesStep(b: Blueprint, lanes: seq<Lane>)
    requires lanes != []
    ensures PlacesOf(b, lanes) == PlacesOf(b, lanes[..|lanes| - 1]) + PlacesIn(lanes[|lanes| - 1], Entries(b, lanes[|lanes| - 1]))
    ensures PlacesOf(b, []) == []
  {
    hide PlacesIn, Entries;
  }

  /** The places of one printed reference that lags. */
  ghost function Lagging(shared: Shared, places: seq<Place>, key: string): seq<Place> {
    Filter((p: Place) => Lags(shared, p.ref) && p.ref.String() == key, places)
  }

  lemma {:induction false} LanesOfLagging(shared: Shared, places: seq<Place>, key: string)
    ensures var lanes, lagging := LanesWith(shared, places, key), Lagging(shared, places, key);
      |lanes| == |lagging| && forall k :: 0 <= k < |lanes| ==> lanes[k] == lagging[k].lane
  {
    hide Reference.String, Behind, Lags;
    if places != [] {
      var n := |places| - 1;
      assert places == places[..n] + [places[n]];
      LanesOfLagging(shared, places[..n], key);
      FilterAppend((p: Place) => Lags(shared, p.ref) && p.ref.String() == key, places[..n], [places[n]]);
      LagsIs(shared, places[n].ref);
    }
  }

  /** The `i`th printed reference appears, lagging, before the `j`th does. */
  ghost predicate AppearsBefore(shared: Shared, places: seq<Place>, first: string, second: string) {
    exists a :: 0 <= a < |places| && Lags(shared, places[a].ref) && places[a].ref.String() == first
      && forall c :: 0 <= c <= a && Lags(shared, places[c].ref) ==> places[c].ref.String() != second
  }

  lemma {:induction false} KeysInOrder(shared: Shared, places: seq<Place>, i: nat, j: nat)
    requires i < j < |KeysBehind(shared, places)|
    ensures AppearsBefore(shared, places, KeysBehind(shared, places)[i], KeysBehind(shared, places)[j])
  {
    hide Reference.String, Behind, Lags;
    var n := |places| - 1;
    var keys, before := KeysBehind(shared, places), KeysBehind(shared, places[..n]);
    forall c | 0 <= c < |places| { LagsIs(shared, places[c].ref); }
    assert forall c :: 0 <= c < n ==> places[..n][c] == places[c];
    if j < |before| {
      KeysInOrder(shared, places[..n], i, j);
      var a :| 0 <= a < n && Lags(shared, places[..n][a].ref) && places[..n][a].ref.String() == keys[i]
        && forall c :: 0 <= c <= a && Lags(shared, places[..n][c].ref) ==> places[..n][c].ref.String() != keys[j];
      assert Lags(shared, places[a].ref);
      forall c | 0 <= c <= a && Lags(shared, places[c].ref) ensures places[c].ref.String() != keys[j] { assert places[..n][c] == places[c]; }
    } else {
      KeysBehindAre(shared, places[..n], keys[i]);
      KeysBehindAre(shared, places[..n], keys[j]);
      assert keys[i] in before && keys[j] !in before;
      var p :| p in places[..n] && Behind(shared, p.ref) && p.ref.String() == keys[i];
      var a :| 0 <= a < n && places[..n][a] == p;
      LagsIs(shared, p.ref);
      forall c | 0 <= c <= a && Lags(shared, places[c].ref) ensures places[c].ref.String() != keys[j] {
        assert places[c] in places[..n] by { assert places[..n][c] == places[c]; }
        LagsIs(shared, places[c].ref);
      }
      assert places[a] == p;
    }
  }

  /** What a drift finding says of its reference: head, and the lanes of exactly
      the entries so printed that lag. */
  ghost predicate Tells(shared: Shared, places: seq<Place>, f: PinFinding) {
    && Lags(shared, f.ref) && f.head == shared[f.ref.team + "/" + f.ref.name].version
    && (exists p :: p in places && p.ref == f.ref)
    && |f.lanes| == |Lagging(shared, places, f.ref.String())|
    && forall k :: 0 <= k < |f.lanes| ==> f.lanes[k] == Lagging(shared, places, f.ref.String())[k].lane
  }

  /** The drift findings of one Blueprint over its authored lanes: one for each
      printed reference that lags, in order of first appearance, naming head
      and listing the lanes of exactly the entries so printed that lag. */
  lemma PinDriftExactly(shared: Shared, b: Blueprint, out: seq<PinFinding>)
    requires IsPinDrift(shared, b, out)
    ensures forall f :: f in out ==> Tells(shared, AllPlaces(b), f)
    ensures forall p :: p in AllPlaces(b) && Lags(shared, p.ref) ==> exists i :: 0 <= i < |out| && out[i].ref.String() == p.ref.String()
    ensures forall i, j :: 0 <= i < j < |out| ==> AppearsBefore(shared, AllPlaces(b), out[i].ref.String(), out[j].ref.String())
  {
    hide Reference.String, AllPlaces, Places, KeysBehind, LanesWith, Lagging, AppearsBefore;
    PlacesAre(b);
    var places, keys := AllPlaces(b), KeysBehind(shared, AllPlaces(b));
    forall f | f in out ensures Tells(shared, places, f) {
      LagsIs(shared, f.ref);
      LanesOfLagging(shared, places, f.ref.String());
    }
    forall p | p in places && Lags(shared, p.ref) ensures exists i :: 0 <= i < |out| && out[i].ref.String() == p.ref.String() {
      LagsIs(shared, p.ref);
      KeysBehindAre(shared, places, p.ref.String());
      var i :| 0 <= i < |keys| && keys[i] == p.ref.String();
      assert out[i].ref.String() == keys[i];
    }
    forall i, j | 0 <= i < j < |out| ensures AppearsBefore(shared, places, out[i].ref.String(), out[j].ref.String()) {
      KeysInOrder(shared, places, i, j);
    }
  }
}
