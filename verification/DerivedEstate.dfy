/** Derivation of the conformance estate from a topology and one collector
    estate reading (internal/conformance/derive.go). */
module DerivedEstate {
  import opened Base
  import opened Replicas
  import opened Topologies
  import opened Staleness

  datatype WhyUnknown =
    | DeclaresNoSelector
    | NothingMatches
    | Unreadable(count: nat, of: nat)
    | Disagreeing(configs: nat, of: nat)
    | Told(text: string)

  datatype Effective =
    | Known(pipelines: seq<Pipeline>)
    | Unknown(why: WhyUnknown)

  datatype Row = Row(service: string, environment: string)

  datatype EstateRow = EstateRow(
    row: Row,
    effective: Effective,
    class_: string,
    onboarded: Option<int>,
    reason: string,
    overridden: bool)

  // ---- which collectors answer for a row ---------------------------------

  /** Go's map lookup: a missing key reads as the empty string. */
  function Attribute(m: Attributes, k: string): string {
    if k in m then m[k] else ""
  }

  predicate SatisfiesSelector(selector: Attributes, identity: Attributes) {
    forall k :: k in selector ==> Attribute(identity, k) == selector[k]
  }

  /** The Path opens on a Tier of this Environment. */
  predicate Opens(topo: Topology, env: string, p: Path) {
    p != [] && p[0] in topo.tiers && topo.tiers[p[0]].environment == env
  }

  function OpeningTiers(topo: Topology, paths: seq<Path>, env: string, seen: set<string>): (r: seq<Tier>) {
    if paths == [] then []
    else if Opens(topo, env, paths[0]) && topo.tiers[paths[0][0]].id !in seen then
      [topo.tiers[paths[0][0]]] + OpeningTiers(topo, paths[1..], env, seen + {topo.tiers[paths[0][0]].id})
    else OpeningTiers(topo, paths[1..], env, seen)
  }

  predicate TierLess(a: Tier, b: Tier) {
    Less(a.id, b.id)
  }

  function FirstTiers(topo: Topology, svc: Service, env: string): seq<Tier> {
    Sort(TierLess, OpeningTiers(topo, svc.paths, env, {}))
  }

  method FirstTiersLoop(topo: Topology, svc: Service, env: string) returns (tiers: seq<Tier>)
    ensures tiers == FirstTiers(topo, svc, env)
  {
    var seen: set<string> := {};
    tiers := [];
    for i := 0 to |svc.paths|
      invariant tiers + OpeningTiers(topo, svc.paths[i..], env, seen) == OpeningTiers(topo, svc.paths, env, {})
    {
      var p := svc.paths[i];
      assert svc.paths[i..][0] == p && svc.paths[i..][1..] == svc.paths[i + 1..];
      if !Opens(topo, env, p) || topo.tiers[p[0]].id in seen {
        continue;
      }
      seen := seen + {topo.tiers[p[0]].id};
      tiers := tiers + [topo.tiers[p[0]]];
    }
    assert svc.paths[|svc.paths|..] == [];
    assert tiers == OpeningTiers(topo, svc.paths, env, {});
    tiers := Sort(TierLess, tiers);
  }

  predicate HasSelector(t: Tier) {
    t.selector != map[]
  }

  /** The selecting Tiers of a row: those a collector can be attributed to. */
  function Selecting(topo: Topology, svc: Service, env: string): seq<Tier> {
    Filter(HasSelector, FirstTiers(topo, svc, env))
  }

  predicate MatchesSome(tiers: seq<Tier>, c: Collector) {
    exists t :: t in tiers && SatisfiesSelector(t.selector, c.identity)
  }

  function Matched(tiers: seq<Tier>, collectors: seq<Collector>): (r: seq<Collector>)
    ensures forall c :: c in r <==> c in collectors && MatchesSome(tiers, c)
  {
    if collectors == [] then []
    else
      var n := |collectors| - 1;
      assert collectors == collectors[..n] + [collectors[n]];
      Matched(tiers, collectors[..n]) + if MatchesSome(tiers, collectors[n]) then [collectors[n]] else []
  }

  /** The matched collectors that cannot be read. */
  function Dark(matched: seq<Collector>): (r: seq<Collector>)
    ensures forall c :: c in r <==> c in matched && c.effective.Unseen?
  {
    if matched == [] then []
    else
      var n := |matched| - 1;
      assert matched == matched[..n] + [matched[n]];
      Dark(matched[..n]) + if matched[n].effective.Unseen? then [matched[n]] else []
  }

  function Pipelines(c: Collector): seq<Pipeline> {
    if c.effective.Seen? then c.effective.payload else []
  }

  /** The distinct configs the matched collectors report. */
  function Configs(matched: seq<Collector>): set<string> {
    if matched == [] then {}
    else
      var n := |matched| - 1;
      Configs(matched[..n]) + {ConfigKey(Pipelines(matched[n]))}
  }

  function EffectiveFor(topo: Topology, svc: Service, env: string, reading: Estate): Effective {
    Judged(Selecting(topo, svc, env), reading.collectors)
  }

  /** The reading of a row whose selecting first Tiers are these. */
  function Judged(selecting: seq<Tier>, collectors: seq<Collector>): Effective {
    var matched := Matched(selecting, collectors);
    if selecting == [] then Unknown(DeclaresNoSelector)
    else if matched == [] then Unknown(NothingMatches)
    else if Dark(matched) != [] then Unknown(Unreadable(|Dark(matched)|, |matched|))
    else if |Configs(matched)| > 1 then Unknown(Disagreeing(|Configs(matched)|, |matched|))
    else Known(Pipelines(matched[0]))
  }

  method SelectingLoop(tiers: seq<Tier>) returns (selecting: seq<Tier>)
    ensures selecting == Filter(HasSelector, tiers)
  {
    selecting := [];
    for i := 0 to |tiers|
      invariant selecting == Filter(HasSelector, tiers[..i])
    {
      FilterAppend(HasSelector, tiers[..i], [tiers[i]]);
      assert tiers[..i + 1] == tiers[..i] + [tiers[i]];
      if tiers[i].selector != map[] { selecting := selecting + [tiers[i]]; }
    }
    assert tiers[..|tiers|] == tiers;
  }

  method MatchedLoop(tiers: seq<Tier>, collectors: seq<Collector>) returns (matched: seq<Collector>)
    ensures matched == Matched(tiers, collectors)
  {
    matched := [];
    for i := 0 to |collectors|
      invariant matched == Matched(tiers, collectors[..i])
    {
      var c := collectors[i];
      assert collectors[..i + 1][..i] == collectors[..i];
      var hit := false;
      for j := 0 to |tiers|
        invariant !hit && !MatchesSome(tiers[..j], c)
      {
        assert tiers[..j + 1] == tiers[..j] + [tiers[j]];
        if SatisfiesSelector(tiers[j].selector, c.identity) {
          hit := true;
          break;
        }
      }
      assert tiers[..|tiers|] == tiers;
      assert hit <==> MatchesSome(tiers, c);
      if hit { matched := matched + [c]; }
    }
    assert collectors[..|collectors|] == collectors;
  }

  method UnreadableLoop(matched: seq<Collector>) returns (unreadable: seq<Collector>)
    ensures unreadable == Dark(matched)
  {
    unreadable := [];
    for i := 0 to |matched|
      invariant unreadable == Dark(matched[..i])
    {
      assert matched[..i + 1][..i] == matched[..i];
      if !matched[i].effective.Seen? { unreadable := unreadable + [matched[i]]; }
    }
    assert matched[..|matched|] == matched;
  }

  /** Groups the collectors by the config they report. */
  method ConfigsLoop(matched: seq<Collector>) returns (configs: map<string, seq<Attributes>>)
    ensures configs.Keys == Configs(matched)
  {
    hide ConfigKey;
    configs := map[];
    for i := 0 to |matched|
      invariant configs.Keys == Configs(matched[..i])
    {
      assert matched[..i + 1][..i] == matched[..i];
      var key := ConfigKey(Pipelines(matched[i]));
      configs := configs[key := (if key in configs then configs[key] else []) + [matched[i].identity]];
    }
    assert matched[..|matched|] == matched;
  }

  method EffectiveForLoop(topo: Topology, svc: Service, env: string, reading: Estate) returns (e: Effective)
    ensures e == EffectiveFor(topo, svc, env, reading)
  {
    var first := FirstTiersLoop(topo, svc, env);
    var selecting := SelectingLoop(first);
    if |selecting| == 0 { return Unknown(DeclaresNoSelector); }
    var matched := MatchedLoop(selecting, reading.collectors);
    if |matched| == 0 { return Unknown(NothingMatches); }
    var unreadable := UnreadableLoop(matched);
    if |unreadable| > 0 { return Unknown(Unreadable(|unreadable|, |matched|)); }
    var configs := ConfigsLoop(matched);
    assert |configs| == |configs.Keys|;
    if |configs| > 1 { return Unknown(Disagreeing(|configs|, |matched|)); }
    return Known(Pipelines(matched[0]));
  }

  // ---- what a Known row means --------------------------------------------

  /** Some Path of the Service opens on a Tier of this Environment that selects
      collectors. */
  ghost predicate SelectsThrough(topo: Topology, svc: Service, env: string, p: Path) {
    && p in svc.paths && p != []
    && p[0] in topo.tiers && topo.tiers[p[0]].environment == env
    && topo.tiers[p[0]].selector != map[]
  }

  /** And the collector reports every pair of its selector; one it does not
      report reads as empty. */
  ghost predicate Attributed(topo: Topology, svc: Service, env: string, c: Collector) {
    exists p :: SelectsThrough(topo, svc, env, p) &&
      forall k :: k in topo.tiers[p[0]].selector ==>
        topo.tiers[p[0]].selector[k] == if k in c.identity then c.identity[k] else ""
  }

  /** The population has one voice at `now`: somebody is attributed to the
      row, everybody attributed is known and fresh, and any two of them
      report the same pipelines up to the order they are listed in. */
  ghost predicate OneVoice(topo: Topology, svc: Service, env: string, e: Estate, now: int) {
    && (exists c :: c in e.collectors && Attributed(topo, svc, env, c))
    && (forall c :: c in e.collectors && Attributed(topo, svc, env, c) ==>
          c.effective.Seen? && StaleCause(e.cadence, now, c.effective.asOf).None?)
    && (forall c, d :: c in e.collectors && Attributed(topo, svc, env, c) && c.effective.Seen? ==>
          d in e.collectors && Attributed(topo, svc, env, d) && d.effective.Seen? ==>
            multiset(c.effective.payload) == multiset(d.effective.payload))
  }

  lemma {:induction false} OpeningTiersAre(topo: Topology, paths: seq<Path>, env: string, seen: set<string>, t: Tier)
    requires Keyed(topo)
    ensures t in OpeningTiers(topo, paths, env, seen) <==>
      t.id !in seen && exists p :: p in paths && Opens(topo, env, p) && topo.tiers[p[0]] == t
  {
    if paths != [] {
      assert paths == [paths[0]] + paths[1..];
      var more := if Opens(topo, env, paths[0]) && topo.tiers[paths[0][0]].id !in seen
        then seen + {topo.tiers[paths[0][0]].id} else seen;
      OpeningTiersAre(topo, paths[1..], env, more, t);
      if Opens(topo, env, paths[0]) && topo.tiers[paths[0][0]] == t { assert paths[0] in paths; }
    }
  }

  /** The first Tiers of a row are those a Path of the Service opens on in its
      Environment, each once, in the order of their ids. */
  lemma FirstTiersAre(topo: Topology, svc: Service, env: string)
    requires Keyed(topo)
    ensures forall t :: t in FirstTiers(topo, svc, env) <==>
      exists p :: p in svc.paths && p != [] && p[0] in topo.tiers && topo.tiers[p[0]].environment == env && topo.tiers[p[0]] == t
    ensures Increasing(TierLess, FirstTiers(topo, svc, env))
  {
    var opening := OpeningTiers(topo, svc.paths, env, {});
    OpeningTiersDiffer(topo, svc.paths, env, {});
    SortMembers(TierLess, opening);
    forall t ensures t in opening <==>
      exists p :: p in svc.paths && p != [] && p[0] in topo.tiers && topo.tiers[p[0]].environment == env && topo.tiers[p[0]] == t
    {
      OpeningTiersAre(topo, svc.paths, env, {}, t);
      if p :| p in svc.paths && p != [] && p[0] in topo.tiers && topo.tiers[p[0]].environment == env && topo.tiers[p[0]] == t {
        assert Opens(topo, env, p);
      }
    }
    hide OpeningTiers, Opens;
    forall t, u | t in opening && u in opening && t != u ensures TierLess(t, u) || TierLess(u, t) {
      LessTotal(t.id, u.id);
    }
    TierOrder();
    SortDistinct(TierLess, opening);
  }

  lemma TierOrder()
    ensures WeakOrder(TierLess)
  {
    StringOrder();
    hide Less;
  }

  lemma {:induction false} OpeningTiersDiffer(topo: Topology, paths: seq<Path>, env: string, seen: set<string>)
    requires Keyed(topo)
    ensures forall i, j :: 0 <= i < j < |OpeningTiers(topo, paths, env, seen)| ==>
      OpeningTiers(topo, paths, env, seen)[i].id != OpeningTiers(topo, paths, env, seen)[j].id
  {
    if paths != [] {
      var here := Opens(topo, env, paths[0]) && topo.tiers[paths[0][0]].id !in seen;
      var more := if here then seen + {topo.tiers[paths[0][0]].id} else seen;
      OpeningTiersDiffer(topo, paths[1..], env, more);
      var rest := OpeningTiers(topo, paths[1..], env, more);
      forall i | 0 <= i < |rest| ensures rest[i].id !in more {
        OpeningTiersAre(topo, paths[1..], env, more, rest[i]);
        assert rest[i] in rest;
      }
      hide Opens, Keyed;
    }
  }

  lemma SelectingAre(topo: Topology, svc: Service, env: string, t: Tier)
    requires Keyed(topo)
    ensures t in Selecting(topo, svc, env) <==> exists p :: SelectsThrough(topo, svc, env, p) && topo.tiers[p[0]] == t
  {
    FirstTiersAre(topo, svc, env);
    hide FirstTiers, Keyed, TierLess;
    if t in Selecting(topo, svc, env) {
      var p :| p in svc.paths && p != [] && p[0] in topo.tiers && topo.tiers[p[0]].environment == env && topo.tiers[p[0]] == t;
      assert SelectsThrough(topo, svc, env, p);
    }
  }

  lemma MatchesAre(topo: Topology, svc: Service, env: string, c: Collector)
    requires Keyed(topo)
    ensures MatchesSome(Selecting(topo, svc, env), c) <==> Attributed(topo, svc, env, c)
  {
    hide Selecting, Keyed;
    if MatchesSome(Selecting(topo, svc, env), c) {
      var t :| t in Selecting(topo, svc, env) && SatisfiesSelector(t.selector, c.identity);
      SelectingAre(topo, svc, env, t);
    }
    if Attributed(topo, svc, env, c) {
      var p :| SelectsThrough(topo, svc, env, p) && forall k :: k in topo.tiers[p[0]].selector ==>
        topo.tiers[p[0]].selector[k] == if k in c.identity then c.identity[k] else "";
      SelectingAre(topo, svc, env, topo.tiers[p[0]]);
      assert SatisfiesSelector(topo.tiers[p[0]].selector, c.identity);
    }
  }

  lemma DemotedAre(e: Estate, now: int, c: Collector)
    ensures c in ForEvaluation(e, now).collectors <==> exists d :: d in e.collectors && c == CollectorForEvaluation(d, e.cadence, now)
  {
    hide CollectorForEvaluation;
    var demoted := ForEvaluation(e, now).collectors;
    if c in demoted {
      var i :| 0 <= i < |demoted| && demoted[i] == c;
      assert e.collectors[i] in e.collectors;
    }
    if d :| d in e.collectors && c == CollectorForEvaluation(d, e.cadence, now) {
      var i :| 0 <= i < |e.collectors| && e.collectors[i] == d;
      assert demoted[i] == c;
    }
  }

  /** The demoted copies of the collectors attributed to a row are the
      matched ones. */
  lemma MatchedAre(topo: Topology, svc: Service, env: string, e: Estate, now: int, c: Collector)
    requires Keyed(topo)
    ensures c in Matched(Selecting(topo, svc, env), ForEvaluation(e, now).collectors) <==>
      exists d :: d in e.collectors && Attributed(topo, svc, env, d) && c == CollectorForEvaluation(d, e.cadence, now)
  {
    DemotedAre(e, now, c);
    MatchesAre(topo, svc, env, c);
    forall d ensures Attributed(topo, svc, env, CollectorForEvaluation(d, e.cadence, now)) <==> Attributed(topo, svc, env, d) {
      AttributedByIdentity(topo, svc, env, CollectorForEvaluation(d, e.cadence, now), d);
    }
    hide Selecting, MatchesSome, Attributed, Keyed, CollectorForEvaluation, ForEvaluation, Matched;
  }

  lemma AttributedByIdentity(topo: Topology, svc: Service, env: string, c: Collector, d: Collector)
    requires c.identity == d.identity
    ensures Attributed(topo, svc, env, c) <==> Attributed(topo, svc, env, d)
  {
  }

  lemma {:induction false} ConfigsAre(matched: seq<Collector>, k: string)
    ensures k in Configs(matched) <==> exists c :: c in matched && ConfigKey(Pipelines(c)) == k
  {
    hide ConfigKey, Pipelines;
    if matched != [] {
      var n := |matched| - 1;
      assert matched == matched[..n] + [matched[n]];
      ConfigsAre(matched[..n], k);
      assert matched[n] in matched;
    }
  }

  /** More than one distinct config means two collectors whose pipelines
      differ by more than their order. */
  lemma ConfigsDisagree(matched: seq<Collector>)
    ensures |Configs(matched)| > 1 <==>
      exists c, d :: c in matched && d in matched && multiset(Pipelines(c)) != multiset(Pipelines(d))
  {
    hide ConfigKey, Pipelines;
    if c, d :| c in matched && d in matched && multiset(Pipelines(c)) != multiset(Pipelines(d)) {
      KeysAgreeExactly(Pipelines(c), Pipelines(d));
      ConfigsAre(matched, ConfigKey(Pipelines(c)));
      ConfigsAre(matched, ConfigKey(Pipelines(d)));
      SubsetSize({ConfigKey(Pipelines(c)), ConfigKey(Pipelines(d))}, Configs(matched));
    } else if matched != [] {
      var only := ConfigKey(Pipelines(matched[0]));
      forall k | k in Configs(matched) ensures k == only {
        ConfigsAre(matched, k);
        var c :| c in matched && ConfigKey(Pipelines(c)) == k;
        assert matched[0] in matched;
        KeysAgreeExactly(Pipelines(c), Pipelines(matched[0]));
      }
      assert Configs(matched) <= {only};
      SubsetSize(Configs(matched), {only});
    }
  }

  /** A reading of a row is Known exactly when somebody matched, nobody
      matched is unreadable, and no two disagree; it is then what each of
      them says. */
  lemma JudgedMeaning(selecting: seq<Tier>, collectors: seq<Collector>)
    ensures Judged(selecting, collectors).Known? <==>
      var m := Matched(selecting, collectors);
      && m != []
      && (forall c :: c in m ==> c.effective.Seen?)
      && (forall c, d :: c in m && d in m ==> multiset(Pipelines(c)) == multiset(Pipelines(d)))
    ensures forall c :: Judged(selecting, collectors).Known? && c in Matched(selecting, collectors) ==>
      multiset(Pipelines(c)) == multiset(Judged(selecting, collectors).pipelines)
  {
    hide Pipelines, ConfigKey, SatisfiesSelector;
    var m := Matched(selecting, collectors);
    ConfigsDisagree(m);
    if Dark(m) != [] { assert Dark(m)[0] in m; }
    if m != [] { assert m[0] in m; }
  }

  lemma DemotedStays(d: Collector, cadence: int, now: int)
    ensures var c := CollectorForEvaluation(d, cadence, now);
            && (c.effective.Seen? <==> d.effective.Seen? && StaleCause(cadence, now, d.effective.asOf).None?)
            && (c.effective.Seen? ==> Pipelines(c) == d.effective.payload)
            && c.identity == d.identity
  {
  }

  lemma KnownHasOneVoice(topo: Topology, svc: Service, env: string, e: Estate, now: int)
    requires Keyed(topo)
    requires EffectiveFor(topo, svc, env, ForEvaluation(e, now)).Known?
    ensures OneVoice(topo, svc, env, e, now)
    ensures forall c :: c in e.collectors && Attributed(topo, svc, env, c) ==>
      c.effective.Seen? && multiset(c.effective.payload) == multiset(EffectiveFor(topo, svc, env, ForEvaluation(e, now)).pipelines)
  {
    hide Selecting, Judged, CollectorForEvaluation, Pipelines, Attributed, StaleCause;
    var selecting := Selecting(topo, svc, env);
    var demoted := ForEvaluation(e, now).collectors;
    var m := Matched(selecting, demoted);
    JudgedMeaning(selecting, demoted);
    assert m[0] in m;
    MatchedAre(topo, svc, env, e, now, m[0]);
    forall d | d in e.collectors && Attributed(topo, svc, env, d)
      ensures d.effective.Seen? && StaleCause(e.cadence, now, d.effective.asOf).None?
      ensures CollectorForEvaluation(d, e.cadence, now) in m
      ensures Pipelines(CollectorForEvaluation(d, e.cadence, now)) == d.effective.payload
    {
      MatchedAre(topo, svc, env, e, now, CollectorForEvaluation(d, e.cadence, now));
      DemotedStays(d, e.cadence, now);
    }
  }

  lemma OneVoiceIsKnown(topo: Topology, svc: Service, env: string, e: Estate, now: int)
    requires Keyed(topo) && OneVoice(topo, svc, env, e, now)
    ensures EffectiveFor(topo, svc, env, ForEvaluation(e, now)).Known?
  {
    hide Selecting, Judged, CollectorForEvaluation, Pipelines, Attributed, StaleCause;
    var selecting := Selecting(topo, svc, env);
    var demoted := ForEvaluation(e, now).collectors;
    var m := Matched(selecting, demoted);
    JudgedMeaning(selecting, demoted);
    var d :| d in e.collectors && Attributed(topo, svc, env, d);
    MatchedAre(topo, svc, env, e, now, CollectorForEvaluation(d, e.cadence, now));
    forall c | c in m
      ensures c.effective.Seen?
      ensures multiset(Pipelines(c)) == multiset(d.effective.payload)
    {
      MatchedAre(topo, svc, env, e, now, c);
      var x :| x in e.collectors && Attributed(topo, svc, env, x) && c == CollectorForEvaluation(x, e.cadence, now);
      DemotedStays(x, e.cadence, now);
    }
  }

  /** A derived row is Known exactly when the population has one voice, and
      then it says what every attributed collector says. */
  lemma KnownExactly(topo: Topology, svc: Service, env: string, e: Estate, now: int)
    requires Keyed(topo)
    ensures EffectiveFor(topo, svc, env, ForEvaluation(e, now)).Known? <==> OneVoice(topo, svc, env, e, now)
    ensures EffectiveFor(topo, svc, env, ForEvaluation(e, now)).Known? ==>
      forall c :: c in e.collectors && Attributed(topo, svc, env, c) ==>
        c.effective.Seen? && multiset(c.effective.payload) == multiset(EffectiveFor(topo, svc, env, ForEvaluation(e, now)).pipelines)
  {
    hide EffectiveFor, OneVoice, Attributed;
    if EffectiveFor(topo, svc, env, ForEvaluation(e, now)).Known? { KnownHasOneVoice(topo, svc, env, e, now); }
    if OneVoice(topo, svc, env, e, now) { OneVoiceIsKnown(topo, svc, env, e, now); }
  }

  // ---- what an Unknown row says ------------------------------------------

  /** The collectors attributed to the row, in the reading's order. */
  ghost function Population(topo: Topology, svc: Service, env: string, e: Estate): seq<Collector> {
    Filter(c => Attributed(topo, svc, env, c), e.collectors)
  }

  /** Those of them nobody can read at `now`. */
  ghost function Unreadables(topo: Topology, svc: Service, env: string, e: Estate, now: int): seq<Collector> {
    Filter(c => Attributed(topo, svc, env, c) && (c.effective.Unseen? || StaleCause(e.cadence, now, c.effective.asOf).Some?), e.collectors)
  }

  /** The different things the readable ones say, whatever the order. */
  ghost function Voices(topo: Topology, svc: Service, env: string, e: Estate): set<multiset<Pipeline>> {
    set c | c in e.collectors && Attributed(topo, svc, env, c) && c.effective.Seen? :: multiset(c.effective.payload)
  }

  lemma {:induction false} MatchedFilters(tiers: seq<Tier>, s: seq<Collector>)
    ensures Matched(tiers, s) == Filter(c => MatchesSome(tiers, c), s)
  {
    hide MatchesSome;
    if s != [] {
      var n := |s| - 1;
      assert s == s[..n] + [s[n]];
      FilterAppend(c => MatchesSome(tiers, c), s[..n], [s[n]]);
      MatchedFilters(tiers, s[..n]);
    }
  }

  lemma {:induction false} DarkFilters(s: seq<Collector>)
    ensures Dark(s) == Filter((c: Collector) => c.effective.Unseen?, s)
  {
    if s != [] {
      var n := |s| - 1;
      assert s == s[..n] + [s[n]];
      FilterAppend((c: Collector) => c.effective.Unseen?, s[..n], [s[n]]);
      DarkFilters(s[..n]);
    }
  }

  lemma {:induction false} FilterTwice<T(!new)>(p: T -> bool, q: T -> bool, both: T -> bool, s: seq<T>)
    requires forall x :: x in s ==> (both(x) <==> q(x) && p(x))
    ensures Filter(p, Filter(q, s)) == Filter(both, s)
  {
    if s != [] {
      assert s[0] in s;
      FilterTwice(p, q, both, s[1..]);
    }
  }

  /** Filtering the images is filtering by what is kept of the images. */
  lemma {:induction false} FilterImages<A(!new), B(!new)>(f: A -> B, keep: B -> bool, keepA: A -> bool, a: seq<A>, fa: seq<B>)
    requires Images(f, a, fa) && forall x :: x in a ==> (keepA(x) <==> keep(f(x)))
    ensures Images(f, Filter(keepA, a), Filter(keep, fa))
  {
    if a != [] {
      assert a[0] in a && fa[0] == f(a[0]);
      assert forall x :: x in a[1..] ==> x in a;
      assert forall i :: 0 <= i < |a[1..]| ==> fa[1..][i] == f(a[1..][i]);
      FilterImages(f, keep, keepA, a[1..], fa[1..]);
      ImagesCons(f, a[0], Filter(keepA, a[1..]), Filter(keep, fa[1..]));
      hide Images;
    }
  }

  lemma ImagesCons<A, B>(f: A -> B, x: A, a: seq<A>, fa: seq<B>)
    requires Images(f, a, fa)
    ensures Images(f, [x] + a, [f(x)] + fa)
  {
  }

  /** Demotion moves nobody in or out of a row's population, and makes unseen
      exactly the stale. */
  lemma DemotedIsMatched(topo: Topology, svc: Service, env: string, c: Collector, cadence: int, now: int)
    requires Keyed(topo)
    ensures MatchesSome(Selecting(topo, svc, env), CollectorForEvaluation(c, cadence, now)) <==> Attributed(topo, svc, env, c)
    ensures CollectorForEvaluation(c, cadence, now).effective.Unseen? <==>
      c.effective.Unseen? || StaleCause(cadence, now, c.effective.asOf).Some?
  {
    var d := CollectorForEvaluation(c, cadence, now);
    DemotedStays(c, cadence, now);
    MatchesAre(topo, svc, env, c);
    hide Selecting, Attributed, CollectorForEvaluation, SatisfiesSelector, StaleCause, Keyed;
    assert MatchesSome(Selecting(topo, svc, env), d) <==> MatchesSome(Selecting(topo, svc, env), c);
  }

  lemma MatchedIsPopulation(topo: Topology, svc: Service, env: string, e: Estate, now: int)
    requires Keyed(topo)
    ensures var m := Matched(Selecting(topo, svc, env), ForEvaluation(e, now).collectors);
      && |m| == |Population(topo, svc, env, e)|
      && forall i :: 0 <= i < |m| ==> m[i] == CollectorForEvaluation(Population(topo, svc, env, e)[i], e.cadence, now)
  {
    var tiers, demoted := Selecting(topo, svc, env), ForEvaluation(e, now).collectors;
    forall c ensures MatchesSome(tiers, CollectorForEvaluation(c, e.cadence, now)) <==> Attributed(topo, svc, env, c) {
      DemotedIsMatched(topo, svc, env, c, e.cadence, now);
    }
    MatchedFilters(tiers, demoted);
    hide Selecting, CollectorForEvaluation, MatchesSome, Attributed, Keyed, Matched, Filter;
    FilterImages((c: Collector) => CollectorForEvaluation(c, e.cadence, now), c => MatchesSome(tiers, c),
      c => Attributed(topo, svc, env, c), e.collectors, demoted);
  }

  lemma DarkMatchedFilters(tiers: seq<Tier>, s: seq<Collector>)
    ensures Dark(Matched(tiers, s)) == Filter(c => MatchesSome(tiers, c) && c.effective.Unseen?, s)
  {
    MatchedFilters(tiers, s);
    DarkFilters(Matched(tiers, s));
    FilterTwice((c: Collector) => c.effective.Unseen?, c => MatchesSome(tiers, c), c => MatchesSome(tiers, c) && c.effective.Unseen?, s);
    hide Matched, Dark, Filter, MatchesSome;
  }

  lemma DarkIsUnreadables(topo: Topology, svc: Service, env: string, e: Estate, now: int)
    requires Keyed(topo)
    ensures |Dark(Matched(Selecting(topo, svc, env), ForEvaluation(e, now).collectors))| == |Unreadables(topo, svc, env, e, now)|
  {
    var tiers, demoted := Selecting(topo, svc, env), ForEvaluation(e, now).collectors;
    forall c
      ensures MatchesSome(tiers, CollectorForEvaluation(c, e.cadence, now)) <==> Attributed(topo, svc, env, c)
      ensures CollectorForEvaluation(c, e.cadence, now).effective.Unseen? <==>
        c.effective.Unseen? || StaleCause(e.cadence, now, c.effective.asOf).Some?
    {
      DemotedIsMatched(topo, svc, env, c, e.cadence, now);
    }
    DarkMatchedFilters(tiers, demoted);
    hide Selecting, CollectorForEvaluation, StaleCause, MatchesSome, Attributed, Keyed, Matched, Dark, Filter;
    FilterImages((c: Collector) => CollectorForEvaluation(c, e.cadence, now), c => MatchesSome(tiers, c) && c.effective.Unseen?,
      c => Attributed(topo, svc, env, c) && (c.effective.Unseen? || StaleCause(e.cadence, now, c.effective.asOf).Some?), e.collectors, demoted);
  }

  function OneMore<T>(s: set<T>, x: T): nat { if x in s then |s| else |s| + 1 }

  lemma SizeWithOneMore<T>(s: set<T>, x: T)
    ensures |s + {x}| == OneMore(s, x)
  {
    if x in s { assert s + {x} == s; }
  }

  ghost function Said(matched: seq<Collector>): set<multiset<Pipeline>> {
    set c | c in matched :: multiset(Pipelines(c))
  }

  lemma SaidGrows(matched: seq<Collector>, c: Collector)
    ensures Said(matched + [c]) == Said(matched) + {multiset(Pipelines(c))}
    ensures ConfigKey(Pipelines(c)) in Configs(matched) <==> multiset(Pipelines(c)) in Said(matched)
  {
    hide ConfigKey, Pipelines, Configs;
    ConfigsAre(matched, ConfigKey(Pipelines(c)));
    forall d ensures ConfigKey(Pipelines(d)) == ConfigKey(Pipelines(c)) <==> multiset(Pipelines(d)) == multiset(Pipelines(c)) {
      KeysAgreeExactly(Pipelines(d), Pipelines(c));
    }
  }

  /** As many configs as there are different things said. */
  lemma {:induction false} ConfigsAreVoices(matched: seq<Collector>)
    ensures |Configs(matched)| == |Said(matched)|
  {
    hide ConfigKey, Pipelines;
    if matched != [] {
      var n := |matched| - 1;
      assert matched == matched[..n] + [matched[n]];
      ConfigsAreVoices(matched[..n]);
      SaidGrows(matched[..n], matched[n]);
      hide Said;
      SizeWithOneMore(Configs(matched[..n]), ConfigKey(Pipelines(matched[n])));
      SizeWithOneMore(Said(matched[..n]), multiset(Pipelines(matched[n])));
    }
  }

  /** What a row that is not Known says, and of whom: no first Tier of it
      selects; or nobody is attributed to it; or so many of them cannot be
      read; or they say so many different things. A Known one is the first
      attributed collector's. */
  lemma ReadingExactly(topo: Topology, svc: Service, env: string, e: Estate, now: int)
    requires Keyed(topo)
    ensures var all, dark, voices := Population(topo, svc, env, e), Unreadables(topo, svc, env, e, now), Voices(topo, svc, env, e);
      var r := EffectiveFor(topo, svc, env, ForEvaluation(e, now));
      if !exists p :: SelectsThrough(topo, svc, env, p) then r == Unknown(DeclaresNoSelector)
      else if all == [] then r == Unknown(NothingMatches)
      else if dark != [] then r == Unknown(Unreadable(|dark|, |all|))
      else if |voices| > 1 then r == Unknown(Disagreeing(|voices|, |all|))
      else all[0].effective.Seen? && r == Known(all[0].effective.payload)
  {
    var all, dark := Population(topo, svc, env, e), Unreadables(topo, svc, env, e, now);
    var selecting := Selecting(topo, svc, env);
    var m := Matched(selecting, ForEvaluation(e, now).collectors);
    assert selecting == [] <==> !exists p :: SelectsThrough(topo, svc, env, p) by {
      if selecting != [] { SelectingAre(topo, svc, env, selecting[0]); }
      if p :| SelectsThrough(topo, svc, env, p) { SelectingAre(topo, svc, env, topo.tiers[p[0]]); }
    }
    MatchedIsPopulation(topo, svc, env, e, now);
    DarkIsUnreadables(topo, svc, env, e, now);
    ConfigsAreVoices(m);
    hide Selecting, SelectsThrough, Keyed, ForEvaluation, Pipelines, CollectorForEvaluation, StaleCause, Attributed;
    if all != [] && dark == [] {
      assert all[0] in all;
      forall c | c in all ensures c.effective.Seen? && Pipelines(CollectorForEvaluation(c, e.cadence, now)) == c.effective.payload {
        assert c !in dark;
        DemotedStays(c, e.cadence, now);
      }
      VoicesAre(topo, svc, env, e, now, m);
    }
  }

  lemma VoicesAre(topo: Topology, svc: Service, env: string, e: Estate, now: int, m: seq<Collector>)
    requires |m| == |Population(topo, svc, env, e)|
    requires forall i :: 0 <= i < |m| ==> m[i] == CollectorForEvaluation(Population(topo, svc, env, e)[i], e.cadence, now)
    requires forall c :: c in Population(topo, svc, env, e) ==>
      c.effective.Seen? && Pipelines(CollectorForEvaluation(c, e.cadence, now)) == c.effective.payload
    ensures Said(m) == Voices(topo, svc, env, e)
  {
    hide Pipelines, CollectorForEvaluation, Attributed;
    var all := Population(topo, svc, env, e);
    forall v ensures v in Said(m) <==> v in Voices(topo, svc, env, e) {
      if c :| c in m && v == multiset(Pipelines(c)) {
        var i :| 0 <= i < |m| && m[i] == c;
        assert all[i] in all;
      }
      if c :| c in e.collectors && Attributed(topo, svc, env, c) && c.effective.Seen? && v == multiset(c.effective.payload) {
        assert c in all;
        var i :| 0 <= i < |all| && all[i] == c;
        assert m[i] in m;
      }
    }
  }

  // ---- the order collectors are read in ----------------------------------

  lemma {:induction false} MatchedCounts(tiers: seq<Tier>, s: seq<Collector>, c: Collector)
    ensures multiset(Matched(tiers, s))[c] == if MatchesSome(tiers, c) then multiset(s)[c] else 0
  {
    hide MatchesSome;
    if s != [] {
      var n := |s| - 1;
      assert s == s[..n] + [s[n]];
      MatchedCounts(tiers, s[..n], c);
    }
  }

  lemma {:induction false} DarkCounts(s: seq<Collector>, c: Collector)
    ensures multiset(Dark(s))[c] == if c.effective.Unseen? then multiset(s)[c] else 0
  {
    if s != [] {
      var n := |s| - 1;
      assert s == s[..n] + [s[n]];
      DarkCounts(s[..n], c);
    }
  }

  lemma SameSize<T>(a: seq<T>, b: seq<T>)
    requires multiset(a) == multiset(b)
    ensures |a| == |b|
  {
    assert |a| == |multiset(a)|;
    assert |b| == |multiset(b)|;
  }

  /** Two readings of a row that differ at most in the order pipelines are
      listed in. */
  predicate SameReading(a: Effective, b: Effective) {
    if a.Known? && b.Known? then multiset(a.pipelines) == multiset(b.pipelines) else a == b
  }

  lemma MatchedPermutes(tiers: seq<Tier>, a: seq<Collector>, b: seq<Collector>)
    requires multiset(a) == multiset(b)
    ensures multiset(Matched(tiers, a)) == multiset(Matched(tiers, b))
  {
    forall c ensures multiset(Matched(tiers, a))[c] == multiset(Matched(tiers, b))[c] {
      MatchedCounts(tiers, a, c);
      MatchedCounts(tiers, b, c);
    }
  }

  lemma DarkPermutes(a: seq<Collector>, b: seq<Collector>)
    requires multiset(a) == multiset(b)
    ensures multiset(Dark(a)) == multiset(Dark(b))
  {
    forall c ensures multiset(Dark(a))[c] == multiset(Dark(b))[c] {
      DarkCounts(a, c);
      DarkCounts(b, c);
    }
  }

  lemma ConfigsPermute(a: seq<Collector>, b: seq<Collector>)
    requires multiset(a) == multiset(b)
    ensures Configs(a) == Configs(b)
  {
    hide ConfigKey, Pipelines;
    SameMembers(a, b);
    forall k ensures k in Configs(a) <==> k in Configs(b) {
      ConfigsAre(a, k);
      ConfigsAre(b, k);
    }
  }

  lemma JudgedIgnoresOrder(selecting: seq<Tier>, a: seq<Collector>, b: seq<Collector>)
    requires multiset(a) == multiset(b)
    ensures SameReading(Judged(selecting, a), Judged(selecting, b))
  {
    hide Pipelines, MatchesSome, ConfigKey, Matched, Dark, Configs;
    var m, n := Matched(selecting, a), Matched(selecting, b);
    MatchedPermutes(selecting, a, b);
    DarkPermutes(m, n);
    ConfigsPermute(m, n);
    SameSize(m, n);
    SameSize(Dark(m), Dark(n));
    if Judged(selecting, a).Known? {
      JudgedMeaning(selecting, a);
      SameMembers(m, n);
      assert n[0] in n;
    }
  }

  lemma WithoutOne<T>(s: seq<T>, i: nat)
    requires i < |s|
    ensures multiset(s[..i] + s[i + 1..]) == multiset(s) - multiset{s[i]}
    ensures multiset(s) == multiset(s[..i] + s[i + 1..]) + multiset{s[i]}
  {
    assert s == s[..i] + [s[i]] + s[i + 1..];
  }

  ghost predicate Images<A, B>(f: A -> B, a: seq<A>, fa: seq<B>) {
    |fa| == |a| && forall i :: 0 <= i < |a| ==> fa[i] == f(a[i])
  }

  lemma ImagesWithout<A, B>(f: A -> B, a: seq<A>, fa: seq<B>, i: nat)
    requires i < |a| && Images(f, a, fa)
    ensures Images(f, a[..i] + a[i + 1..], fa[..i] + fa[i + 1..])
  {
  }

  /** Mapping a rearrangement rearranges the images. */
  lemma {:induction false} ImagesPermute<A, B>(f: A -> B, a: seq<A>, b: seq<A>, fa: seq<B>, fb: seq<B>)
    requires multiset(a) == multiset(b)
    requires Images(f, a, fa) && Images(f, b, fb)
    ensures multiset(fa) == multiset(fb)
    decreases |a|
  {
    SameSize(a, b);
    if a != [] {
      SameMembers(a, b);
      assert a[0] in b;
      var i :| 0 <= i < |b| && b[i] == a[0];
      assert fa[0] == fb[i];
      WithoutOne(a, 0);
      WithoutOne(b, i);
      WithoutOne(fa, 0);
      WithoutOne(fb, i);
      ImagesWithout(f, a, fa, 0);
      ImagesWithout(f, b, fb, i);
      hide Images;
      ImagesPermute(f, a[..0] + a[1..], b[..i] + b[i + 1..], fa[..0] + fa[1..], fb[..i] + fb[i + 1..]);
    } else {
      assert fa == fb == [];
    }
  }

  /** No row depends on the order a provider lists its collectors in. */
  lemma CollectorOrderIsIrrelevant(topo: Topology, svc: Service, env: string, a: Estate, b: Estate, now: int)
    requires a.cadence == b.cadence && multiset(a.collectors) == multiset(b.collectors)
    ensures SameReading(EffectiveFor(topo, svc, env, ForEvaluation(a, now)), EffectiveFor(topo, svc, env, ForEvaluation(b, now)))
  {
    ImagesPermute(c => CollectorForEvaluation(c, a.cadence, now), a.collectors, b.collectors,
      ForEvaluation(a, now).collectors, ForEvaluation(b, now).collectors);
    JudgedIgnoresOrder(Selecting(topo, svc, env), ForEvaluation(a, now).collectors, ForEvaluation(b, now).collectors);
  }
}
