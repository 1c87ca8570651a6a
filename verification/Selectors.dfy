/** The claim flow's selector algebra and its impact preview
    (internal/instance/claim.go). */
module Selectors {
  import opened Base
  import opened Topologies
  import opened DerivedEstate

  type Selector = Attributes

  /** The pairs two selectors agree on. A key missing from `b` reads as the
      empty string. */
  function SharedPairs(a: Selector, b: Selector): Selector {
    map k | k in a && Attribute(b, k) == a[k] :: a[k]
  }

  predicate Contradicts(tierSelector: Selector, sel: Selector) {
    exists k :: k in sel && k in tierSelector && tierSelector[k] != sel[k]
  }

  method SharedPairsLoop(a: Selector, b: Selector) returns (out: Selector)
    ensures out == SharedPairs(a, b)
  {
    out := map[];
    var todo := a.Keys;
    while todo != {}
      invariant todo <= a.Keys
      invariant out == map k | k in a.Keys - todo && Attribute(b, k) == a[k] :: a[k]
      decreases |todo|
    {
      var k :| k in todo;
      todo := todo - {k};
      if Attribute(b, k) == a[k] { out := out[k := a[k]]; }
    }
  }

  method MatchesAttributes(sel: Selector, attributes: Attributes) returns (matches: bool)
    ensures matches == SatisfiesSelector(sel, attributes)
  {
    var todo := sel.Keys;
    while todo != {}
      invariant todo <= sel.Keys
      invariant forall k :: k in sel.Keys - todo ==> Attribute(attributes, k) == sel[k]
      decreases |todo|
    {
      var k :| k in todo;
      if Attribute(attributes, k) != sel[k] { return false; }
      todo := todo - {k};
    }
    return true;
  }

  method ContradictsLoop(tierSelector: Selector, sel: Selector) returns (c: bool)
    ensures c == Contradicts(tierSelector, sel)
  {
    var todo := sel.Keys;
    while todo != {}
      invariant todo <= sel.Keys
      invariant forall k :: k in sel.Keys - todo && k in tierSelector ==> tierSelector[k] == sel[k]
      decreases |todo|
    {
      var k :| k in todo;
      if k in tierSelector && tierSelector[k] != sel[k] { return true; }
      todo := todo - {k};
    }
    return false;
  }

  // ---- the lattice -------------------------------------------------------

  /** Every pair of `a` is a pair of `b`. */
  predicate SubSelector(a: Selector, b: Selector) {
    forall k :: k in a ==> k in b && b[k] == a[k]
  }

  /** `b` carries every key of `a` that has no value. A loaded Tier and a claim
      the console accepts have none, so nothing to carry. */
  predicate CarriesTheEmpty(a: Selector, b: Selector) {
    forall k :: k in a && a[k] == "" ==> k in b
  }

  ghost predicate IsMeet(m: Selector, a: Selector, b: Selector) {
    forall c :: SubSelector(c, a) && SubSelector(c, b) <==> SubSelector(c, m)
  }

  /** The shared pairs are the meet, below both and above everything below
      both, exactly when the second selector carries the first one's valueless
      keys; and they are the same from either side exactly when each carries
      the other's. */
  lemma SharedIsTheMeetExactly(a: Selector, b: Selector)
    ensures IsMeet(SharedPairs(a, b), a, b) <==> CarriesTheEmpty(a, b)
    ensures SharedPairs(a, b) == SharedPairs(b, a) <==> CarriesTheEmpty(a, b) && CarriesTheEmpty(b, a)
  {
    var m := SharedPairs(a, b);
    SharedBelowSecondExactly(a, b);
    if IsMeet(m, a, b) { assert SubSelector(m, m); }
    if k :| k in a && a[k] == "" && k !in b { assert k in m && k !in SharedPairs(b, a); }
    if k :| k in b && b[k] == "" && k !in a { assert k !in m && k in SharedPairs(b, a); }
  }

  /** The order is what selectors mean: every pair of one is a pair of another
      exactly when it reaches whatever the other reaches. */
  lemma OrderIsReach(a: Selector, b: Selector)
    ensures SubSelector(a, b) <==> forall attributes :: SatisfiesSelector(b, attributes) ==> SatisfiesSelector(a, attributes)
  {
    if !SubSelector(a, b) {
      var k :| k in a && !(k in b && b[k] == a[k]);
      var away := if k in b then b else b[k := a[k] + "elsewhere"];
      assert SatisfiesSelector(b, away);
      assert Attribute(away, k) != a[k];
    }
  }

  lemma SharedBelowSecondExactly(a: Selector, b: Selector)
    ensures SubSelector(SharedPairs(a, b), b) <==> CarriesTheEmpty(a, b)
  {
  }

  /** With an empty value the two sides differ. */
  lemma EmptyValuesBreakTheMeet()
    ensures SharedPairs(map["zone" := ""], map[]) == map["zone" := ""]
    ensures SharedPairs(map[], map["zone" := ""]) == map[]
  {
  }

  predicate ReportsNothingFor(a: Selector, b: Selector, attributes: Attributes) {
    forall k :: k in a && a[k] == "" && k !in b ==> Attribute(attributes, k) == ""
  }

  /** A collector matching the first selector matches what the two share, and
      one matching the second does exactly when it reports nothing under a
      valueless key of the first that the second lacks. */
  lemma EitherMatchesShared(a: Selector, b: Selector, attributes: Attributes)
    ensures SatisfiesSelector(a, attributes) ==> SatisfiesSelector(SharedPairs(a, b), attributes)
    ensures SatisfiesSelector(b, attributes) ==>
      (SatisfiesSelector(SharedPairs(a, b), attributes) <==> ReportsNothingFor(a, b, attributes))
  {
    var m := SharedPairs(a, b);
    forall k | k in a && a[k] == "" && k !in b ensures k in m && m[k] == "" { }
    forall k | k in m && !(a[k] == "" && k !in b) ensures k in b && b[k] == m[k] { }
  }

  /** Attaching reaches every collector the claim alone reaches, whatever they
      report, exactly when the claim carries the Tier's valueless keys. */
  lemma AttachReachesExactly(authored: Selector, sel: Selector)
    ensures (forall attributes :: SatisfiesSelector(sel, attributes) ==> SatisfiesSelector(SharedPairs(authored, sel), attributes))
      <==> CarriesTheEmpty(authored, sel)
  {
    OrderIsReach(SharedPairs(authored, sel), sel);
    SharedBelowSecondExactly(authored, sel);
  }

  /** No contradiction exactly when one collector could match both. */
  lemma ContradictionIsDisjointness(a: Selector, b: Selector)
    ensures !Contradicts(a, b) <==> exists attributes :: SatisfiesSelector(a, attributes) && SatisfiesSelector(b, attributes)
  {
    if !Contradicts(a, b) {
      var both := a + b;
      assert SatisfiesSelector(a, both) && SatisfiesSelector(b, both);
    }
    if attributes :| SatisfiesSelector(a, attributes) && SatisfiesSelector(b, attributes) {
      forall k | k in b && k in a ensures a[k] == b[k] {
        assert Attribute(attributes, k) == a[k];
        assert Attribute(attributes, k) == b[k];
      }
    }
  }

  // ---- the preview -------------------------------------------------------

  /** `tier` is empty on an ungoverned row, which is then read as served or
      foreign. */
  datatype CollectorRow = CollectorRow(tier: string, ungoverned: string, attributes: Attributes)

  datatype Card = Card(tier: string, name: string, team: string, environment: string, matched: int)

  datatype Bundle = Bundle(selectors: map<string, Selector>, collectors: seq<CollectorRow>, cards: seq<Card>)

  datatype Mode = Attach | Draft | Undecided

  datatype Request = Request(selector: Selector, mode: Mode, tier: string)

  datatype Reach = Reach(total: nat, served: nat, foreign: nat)

  datatype Overlap = Overlap(tier: string, matched: int)

  datatype Candidate = Candidate(
    tier: string, name: string, team: string, environment: string, selector: Selector, satisfied: nat, of: nat, widened: Selector)

  datatype Preview = Preview(matched: Reach, overlaps: seq<Overlap>, candidates: seq<Candidate>)

  /** For attach, what is judged is the widened selector. */
  function Judged(b: Bundle, req: Request): Selector {
    if req.mode.Attach? && req.tier in b.selectors then SharedPairs(b.selectors[req.tier], req.selector) else req.selector
  }

  predicate Reached(sel: Selector, row: CollectorRow) {
    row.tier == "" && SatisfiesSelector(sel, row.attributes)
  }

  function ReachOf(sel: Selector, rows: seq<CollectorRow>): Reach {
    if rows == [] then Reach(0, 0, 0)
    else
      var before := ReachOf(sel, rows[..|rows| - 1]);
      var row := rows[|rows| - 1];
      if !Reached(sel, row) then before
      else Reach(before.total + 1,
                 before.served + if row.ungoverned == "served" then 1 else 0,
                 before.foreign + if row.ungoverned == "foreign" then 1 else 0)
  }

  /** A Tier's card: the first that names it. */
  function FirstCard(cards: seq<Card>, tier: string): (card: Option<Card>)
    ensures card.Some? ==> card.value in cards && card.value.tier == tier
    ensures card.None? ==> forall x :: x in cards ==> x.tier != tier
  {
    if cards == [] then None
    else if cards[0].tier == tier then Some(cards[0])
    else FirstCard(cards[1..], tier)
  }

  method FindCard(cards: seq<Card>, tier: string) returns (card: Option<Card>)
    ensures card == FirstCard(cards, tier)
  {
    for i := 0 to |cards|
      invariant FirstCard(cards, tier) == FirstCard(cards[i..], tier)
    {
      if cards[i].tier == tier { return Some(cards[i]); }
    }
    return None;
  }

  function MatchedCount(cards: seq<Card>, tier: string): int {
    var card := FirstCard(cards, tier);
    if card.None? then 0 else card.value.matched
  }

  function OverlapsOf(b: Bundle, req: Request, effective: Selector, tiers: seq<string>): seq<Overlap>
    requires forall t :: t in tiers ==> t in b.selectors
  {
    if tiers == [] then []
    else
      var n := |tiers| - 1;
      OverlapsOf(b, req, effective, tiers[..n]) +
        if tiers[n] == req.tier || effective == map[] || Contradicts(b.selectors[tiers[n]], effective) then []
        else [Overlap(tiers[n], MatchedCount(b.cards, tiers[n]))]
  }

  /** A Tier as somewhere to attach; without a card its name is its id. */
  function CandidateFor(b: Bundle, sel: Selector, tier: string): Candidate
    requires tier in b.selectors
  {
    var authored, card := b.selectors[tier], FirstCard(b.cards, tier);
    var widened := SharedPairs(authored, sel);
    if card.None? then Candidate(tier, tier, "", "", authored, |widened|, |authored|, widened)
    else Candidate(tier, card.value.name, card.value.team, card.value.environment, authored, |widened|, |authored|, widened)
  }

  function CandidatesOf(b: Bundle, sel: Selector, tiers: seq<string>): seq<Candidate>
    requires forall t :: t in tiers ==> t in b.selectors
  {
    if tiers == [] then []
    else
      var n := |tiers| - 1;
      CandidatesOf(b, sel, tiers[..n]) +
        if SharedPairs(b.selectors[tiers[n]], sel) == map[] then [] else [CandidateFor(b, sel, tiers[n])]
  }

  /** Proximity: more satisfied pairs first, then the larger share of the
      Tier's own selector, then the name. Shares are compared exactly. */
  predicate Nearer(a: Candidate, c: Candidate) {
    if a.satisfied != c.satisfied then a.satisfied > c.satisfied
    else if a.of != 0 && c.of != 0 && a.satisfied * c.of != c.satisfied * a.of then a.satisfied * c.of > c.satisfied * a.of
    else Less(a.tier, c.tier)
  }

  function PreviewOf(b: Bundle, req: Request): Preview {
    var effective := Judged(b, req);
    var tiers := Ascending(b.selectors.Keys);
    Preview(ReachOf(effective, b.collectors),
            OverlapsOf(b, req, effective, tiers),
            Sort(Nearer, CandidatesOf(b, req.selector, tiers)))
  }

  method EvaluateClaim(b: Bundle, req: Request) returns (out: Preview)
    ensures out == PreviewOf(b, req)
  {
    hide Contradicts, SharedPairs, SatisfiesSelector, Nearer;
    var effective := req.selector;
    if req.mode.Attach? && req.tier in b.selectors {
      effective := SharedPairsLoop(b.selectors[req.tier], req.selector);
    }
    var matched := Reach(0, 0, 0);
    for i := 0 to |b.collectors|
      invariant matched == ReachOf(effective, b.collectors[..i])
    {
      var row := b.collectors[i];
      assert b.collectors[..i + 1][..i] == b.collectors[..i];
      if row.tier != "" { continue; }
      var matches := MatchesAttributes(effective, row.attributes);
      if !matches { continue; }
      matched := matched.(total := matched.total + 1);
      if row.ungoverned == "served" {
        matched := matched.(served := matched.served + 1);
      } else if row.ungoverned == "foreign" {
        matched := matched.(foreign := matched.foreign + 1);
      }
    }
    assert b.collectors[..|b.collectors|] == b.collectors;
    var tiers := Ascending(b.selectors.Keys);
    var overlaps := OverlapsLoop(b, req, effective, tiers);
    var candidates := CandidatesLoop(b, req.selector, tiers);
    out := Preview(matched, overlaps, Sort(Nearer, candidates));
  }

  method OverlapsLoop(b: Bundle, req: Request, effective: Selector, tiers: seq<string>) returns (out: seq<Overlap>)
    requires forall t :: t in tiers ==> t in b.selectors
    ensures out == OverlapsOf(b, req, effective, tiers)
  {
    hide Contradicts;
    out := [];
    for i := 0 to |tiers|
      invariant out == OverlapsOf(b, req, effective, tiers[..i])
    {
      assert tiers[..i + 1][..i] == tiers[..i];
      assert tiers[i] in tiers;
      if tiers[i] == req.tier || effective == map[] { continue; }
      var contradicts := ContradictsLoop(b.selectors[tiers[i]], effective);
      if contradicts { continue; }
      var card := FindCard(b.cards, tiers[i]);
      out := out + [Overlap(tiers[i], if card.None? then 0 else card.value.matched)];
    }
    assert tiers[..|tiers|] == tiers;
  }

  method CandidatesLoop(b: Bundle, sel: Selector, tiers: seq<string>) returns (out: seq<Candidate>)
    requires forall t :: t in tiers ==> t in b.selectors
    ensures out == CandidatesOf(b, sel, tiers)
  {
    hide SharedPairs;
    out := [];
    for i := 0 to |tiers|
      invariant out == CandidatesOf(b, sel, tiers[..i])
    {
      assert tiers[..i + 1][..i] == tiers[..i];
      assert tiers[i] in tiers;
      var authored := b.selectors[tiers[i]];
      var widened := SharedPairsLoop(authored, sel);
      if widened == map[] { continue; }
      var candidate := Candidate(tiers[i], tiers[i], "", "", authored, |widened|, |authored|, widened);
      var card := FindCard(b.cards, tiers[i]);
      if card.Some? {
        candidate := candidate.(name := card.value.name, team := card.value.team, environment := card.value.environment);
      }
      out := out + [candidate];
    }
    assert tiers[..|tiers|] == tiers;
  }

  /** A selector reaching whatever another reaches counts at least as many, in
      every column. */
  lemma {:induction false} WiderReachesMore(wide: Selector, narrow: Selector, rows: seq<CollectorRow>)
    requires forall row :: row in rows && Reached(narrow, row) ==> Reached(wide, row)
    ensures ReachOf(wide, rows).total >= ReachOf(narrow, rows).total
    ensures ReachOf(wide, rows).served >= ReachOf(narrow, rows).served
    ensures ReachOf(wide, rows).foreign >= ReachOf(narrow, rows).foreign
  {
    hide Reached;
    if rows != [] {
      var n := |rows| - 1;
      assert rows == rows[..n] + [rows[n]];
      assert rows[n] in rows;
      WiderReachesMore(wide, narrow, rows[..n]);
    }
  }

  predicate AtLeast(more: Reach, less: Reach) {
    more.total >= less.total && more.served >= less.served && more.foreign >= less.foreign
  }

  lemma ReachOfOne(sel: Selector, row: CollectorRow)
    ensures ReachOf(sel, [row]).total == if Reached(sel, row) then 1 else 0
  {
    assert [row][..0] == [];
    assert ReachOf(sel, [row][..0]).total == 0;
  }

  /** Whatever the collectors, the attach preview counts at least what the
      claim alone reaches, exactly when the claim carries the valueless keys
      of the Tier it names. */
  lemma AttachPreviewCountsMoreExactly(b: Bundle, req: Request)
    ensures (forall rows ::
              AtLeast(PreviewOf(b.(collectors := rows), req.(mode := Attach)).matched,
                      PreviewOf(b.(collectors := rows), req.(mode := Undecided)).matched))
      <==> (req.tier in b.selectors ==> CarriesTheEmpty(b.selectors[req.tier], req.selector))
  {
    var wide, sel := Judged(b, req.(mode := Attach)), req.selector;
    hide SatisfiesSelector, CarriesTheEmpty, SharedPairs;
    if req.tier in b.selectors { AttachReachesExactly(b.selectors[req.tier], sel); }
    if forall attributes :: SatisfiesSelector(sel, attributes) ==> SatisfiesSelector(wide, attributes) {
      forall rows ensures AtLeast(ReachOf(wide, rows), ReachOf(sel, rows)) { WiderReachesMore(wide, sel, rows); }
    } else {
      var attributes :| SatisfiesSelector(sel, attributes) && !SatisfiesSelector(wide, attributes);
      var rows := [CollectorRow("", "served", attributes)];
      ReachOfOne(sel, rows[0]);
      ReachOfOne(wide, rows[0]);
      assert !AtLeast(PreviewOf(b.(collectors := rows), req.(mode := Attach)).matched,
                      PreviewOf(b.(collectors := rows), req.(mode := Undecided)).matched);
    }
  }

  /** With an empty authored value it can count fewer. */
  lemma EmptyValuesLoseCollectors()
    ensures var b := Bundle(map["t" := map["zone" := ""]], [CollectorRow("", "served", map["app" := "x", "zone" := "eu"])], []);
            var req := Request(map["app" := "x"], Attach, "t");
            PreviewOf(b, req).matched.total < PreviewOf(b, req.(mode := Undecided)).matched.total
  {
    var authored: Selector, sel: Selector := map["zone" := ""], map["app" := "x"];
    var row := CollectorRow("", "served", map["app" := "x", "zone" := "eu"]);
    assert Attribute(row.attributes, "zone") == "eu";
    LosesACollector(authored, sel, "zone", row);
    hide ReachOf, SharedPairs, SatisfiesSelector;
  }

  lemma LosesACollector(authored: Selector, sel: Selector, k: string, row: CollectorRow)
    requires k in authored && authored[k] == "" && k !in sel
    requires Reached(sel, row) && Attribute(row.attributes, k) != ""
    ensures ReachOf(SharedPairs(authored, sel), [row]).total < ReachOf(sel, [row]).total
  {
    EitherMatchesShared(authored, sel, row.attributes);
    ReachOfOne(sel, row);
    ReachOfOne(SharedPairs(authored, sel), row);
  }

  /** The overlaps are the other Tiers some collector could match as well. */
  lemma {:induction false} OverlapsAre(b: Bundle, req: Request, effective: Selector, tiers: seq<string>, t: string)
    requires forall x :: x in tiers ==> x in b.selectors
    ensures (exists o :: o in OverlapsOf(b, req, effective, tiers) && o.tier == t) <==>
      && t in tiers && t != req.tier && effective != map[]
      && exists attributes :: SatisfiesSelector(b.selectors[t], attributes) && SatisfiesSelector(effective, attributes)
  {
    hide Contradicts, SatisfiesSelector;
    if tiers != [] {
      var n := |tiers| - 1;
      assert tiers == tiers[..n] + [tiers[n]];
      OverlapsAre(b, req, effective, tiers[..n], t);
      assert tiers[n] in tiers;
      if t in tiers { ContradictionIsDisjointness(b.selectors[t], effective); }
      var before := OverlapsOf(b, req, effective, tiers[..n]);
      if t == tiers[n] && t != req.tier && effective != map[] && !Contradicts(b.selectors[t], effective) {
        assert Overlap(t, MatchedCount(b.cards, t)) in OverlapsOf(b, req, effective, tiers);
      }
      if o :| o in before && o.tier == t { assert o in OverlapsOf(b, req, effective, tiers); }
    }
  }

  /** The candidates are the Tiers that share a pair with the claim, each with
      its card and the selector attaching would leave. */
  lemma {:induction false} CandidatesAre(b: Bundle, sel: Selector, tiers: seq<string>, c: Candidate)
    requires forall t :: t in tiers ==> t in b.selectors
    ensures c in CandidatesOf(b, sel, tiers)
       <==> c.tier in tiers && SharedPairs(b.selectors[c.tier], sel) != map[] && c == CandidateFor(b, sel, c.tier)
  {
    hide SharedPairs;
    if tiers != [] {
      var n := |tiers| - 1;
      assert tiers == tiers[..n] + [tiers[n]];
      CandidatesAre(b, sel, tiers[..n], c);
    }
  }

  lemma {:induction false} CandidatesOnce(b: Bundle, sel: Selector, tiers: seq<string>)
    requires Distinct(tiers) && forall t :: t in tiers ==> t in b.selectors
    ensures Distinct(CandidatesOf(b, sel, tiers))
  {
    hide SharedPairs;
    if tiers != [] {
      var n := |tiers| - 1;
      CandidatesOnce(b, sel, tiers[..n]);
      var before := CandidatesOf(b, sel, tiers[..n]);
      forall i | 0 <= i < |before| ensures before[i] != CandidateFor(b, sel, tiers[n]) {
        CandidatesAre(b, sel, tiers[..n], before[i]);
      }
    }
  }

  /** Ahead on pairs satisfied; of those as good, on the smaller selector; of
      those as small, on the name. */
  predicate Ahead(a: Candidate, c: Candidate) {
    || a.satisfied > c.satisfied
    || (a.satisfied == c.satisfied && (a.of < c.of || (a.of == c.of && Less(a.tier, c.tier))))
  }

  /** On candidates that satisfy something the comparison of shares is the
      comparison of selector sizes. */
  lemma NearerIsAhead(a: Candidate, c: Candidate)
    requires 0 < a.satisfied <= a.of && 0 < c.satisfied <= c.of
    ensures Nearer(a, c) <==> Ahead(a, c)
  {
    if a.satisfied == c.satisfied {
      ScalingKeepsOrder(a.satisfied, a.of, c.of);
      ScalingKeepsOrder(a.satisfied, c.of, a.of);
    }
  }

  lemma {:induction false} ScalingKeepsOrder(n: nat, x: nat, y: nat)
    requires n > 0
    ensures x < y ==> n * x < n * y
  {
    if n > 1 && x < y {
      ScalingKeepsOrder(n - 1, x, y);
      assert n * x == (n - 1) * x + x;
      assert n * y == (n - 1) * y + y;
    }
  }

  lemma AheadOrder(cs: seq<Candidate>)
    ensures WeakOrderOn(Ahead, cs)
  {
    StringOrder();
  }

  lemma SharedIsNoLarger(a: Selector, b: Selector)
    ensures |SharedPairs(a, b)| <= |a|
  {
    assert SharedPairs(a, b).Keys <= a.Keys;
    SubsetSize(SharedPairs(a, b).Keys, a.Keys);
  }

  /** The preview ranks every Tier that shares a pair with the claim, each
      once: most pairs satisfied first, then the tightest selector, then the
      name. */
  lemma CandidatesAreRanked(b: Bundle, req: Request)
    ensures Increasing(Ahead, PreviewOf(b, req).candidates)
    ensures forall c :: c in PreviewOf(b, req).candidates <==>
      c.tier in b.selectors && SharedPairs(b.selectors[c.tier], req.selector) != map[] && c == CandidateFor(b, req.selector, c.tier)
  {
    var tiers := Ascending(b.selectors.Keys);
    var cs := CandidatesOf(b, req.selector, tiers);
    forall c ensures c in cs <==>
      c.tier in b.selectors && SharedPairs(b.selectors[c.tier], req.selector) != map[] && c == CandidateFor(b, req.selector, c.tier)
    {
      CandidatesAre(b, req.selector, tiers, c);
    }
    SortMembers(Nearer, cs);
    forall i, j | 0 <= i < j < |tiers| ensures tiers[i] != tiers[j] { LessIrreflexive(tiers[i]); }
    CandidatesOnce(b, req.selector, tiers);
    forall c | c in cs ensures 0 < c.satisfied <= c.of {
      SharedIsNoLarger(b.selectors[c.tier], req.selector);
    }
    RankedByShares(cs);
  }

  lemma RankedByShares(cs: seq<Candidate>)
    requires Distinct(cs)
    requires forall c :: c in cs ==> 0 < c.satisfied <= c.of
    requires forall a, c :: a in cs && c in cs && a.tier == c.tier ==> a == c
    ensures Increasing(Ahead, Sort(Nearer, cs))
  {
    forall a, c | a in cs && c in cs ensures Nearer(a, c) <==> Ahead(a, c) { NearerIsAhead(a, c); }
    AheadOrder(cs);
    forall a, c | a in cs && c in cs && a != c ensures Ahead(a, c) || Ahead(c, a) { LessTotal(a.tier, c.tier); }
    hide Ahead, Nearer;
    SortDistinctOn(Nearer, cs);
    SortMembers(Nearer, cs);
  }

  // ---- the preview, over what was authored and reported ----------------------

  /** Every pair of the selector is reported; a key nobody reports reads as
      empty. */
  ghost predicate Takes(sel: Selector, attributes: Attributes) {
    forall k :: k in sel ==> sel[k] == if k in attributes then attributes[k] else ""
  }

  /** `m` holds exactly the pairs of `a` that `b` has too, reading as empty what
      `b` lacks. */
  ghost predicate IsShared(m: Selector, a: Selector, b: Selector) {
    forall k :: (k in m <==> k in a && a[k] == if k in b then b[k] else "") && (k in m ==> m[k] == a[k])
  }

  lemma SharedIs(a: Selector, b: Selector)
    ensures IsShared(SharedPairs(a, b), a, b)
  {
  }

  lemma OneShared(m: Selector, n: Selector, a: Selector, b: Selector)
    requires IsShared(m, a, b) && IsShared(n, a, b)
    ensures m == n
  {
    forall k ensures k in m <==> k in n {}
  }

  /** The claim's own selector or, attaching to a Tier that has one, what the
      two share. */
  ghost predicate IsEffective(b: Bundle, req: Request, sel: Selector) {
    if req.mode == Attach && req.tier in b.selectors then IsShared(sel, b.selectors[req.tier], req.selector) else sel == req.selector
  }

  /** An ungoverned collector the selector takes. */
  ghost predicate Counts(sel: Selector, row: CollectorRow) { row.tier == "" && Takes(sel, row.attributes) }

  lemma {:induction false} ReachCounts(sel: Selector, rows: seq<CollectorRow>)
    ensures ReachOf(sel, rows) == Reach(
      |Filter(row => Counts(sel, row), rows)|,
      |Filter((row: CollectorRow) => Counts(sel, row) && row.ungoverned == "served", rows)|,
      |Filter((row: CollectorRow) => Counts(sel, row) && row.ungoverned == "foreign", rows)|)
  {
    if rows != [] {
      var n := |rows| - 1;
      assert rows == rows[..n] + [rows[n]];
      FilterAppend(row => Counts(sel, row), rows[..n], [rows[n]]);
      FilterAppend((row: CollectorRow) => Counts(sel, row) && row.ungoverned == "served", rows[..n], [rows[n]]);
      FilterAppend((row: CollectorRow) => Counts(sel, row) && row.ungoverned == "foreign", rows[..n], [rows[n]]);
      ReachCounts(sel, rows[..n]);
      assert Reached(sel, rows[n]) <==> Counts(sel, rows[n]);
      hide Reached, Counts;
    }
  }

  /** The first card that names the Tier. */
  ghost predicate IsCardOf(cards: seq<Card>, tier: string, card: Card) {
    exists i :: 0 <= i < |cards| && cards[i] == card && card.tier == tier && forall j :: 0 <= j < i ==> cards[j].tier != tier
  }

  ghost predicate NoCard(cards: seq<Card>, tier: string) { forall x :: x in cards ==> x.tier != tier }

  lemma {:induction false} CardIsFirst(cards: seq<Card>, tier: string)
    ensures FirstCard(cards, tier).Some? ==> IsCardOf(cards, tier, FirstCard(cards, tier).value)
    ensures FirstCard(cards, tier).None? <==> NoCard(cards, tier)
  {
    if cards != [] && cards[0].tier != tier {
      CardIsFirst(cards[1..], tier);
      if FirstCard(cards[1..], tier).Some? {
        var card := FirstCard(cards[1..], tier).value;
        var i :| 0 <= i < |cards[1..]| && cards[1..][i] == card && card.tier == tier && forall j :: 0 <= j < i ==> cards[1..][j].tier != tier;
        assert cards[i + 1] == card;
        forall j | 0 <= j < i + 1 ensures cards[j].tier != tier { if j > 0 { assert cards[1..][j - 1] == cards[j]; } }
      }
    } else if cards != [] {
      assert cards[0] in cards;
    }
  }

  /** Another Tier whose selector disagrees with the claim's on nothing they
      both carry, with the count its card shows. */
  ghost predicate MayOverlap(b: Bundle, req: Request, sel: Selector, o: Overlap) {
    && o.tier in b.selectors && o.tier != req.tier && sel != map[]
    && (forall k :: k in sel && k in b.selectors[o.tier] ==> b.selectors[o.tier][k] == sel[k])
    && (NoCard(b.cards, o.tier) ==> o.matched == 0)
    && forall card :: IsCardOf(b.cards, o.tier, card) ==> o.matched == card.matched
  }

  lemma OverlapIs(b: Bundle, req: Request, sel: Selector, o: Overlap)
    ensures MayOverlap(b, req, sel, o) <==>
      o.tier in b.selectors && o.tier != req.tier && sel != map[] && !Contradicts(b.selectors[o.tier], sel) && o.matched == MatchedCount(b.cards, o.tier)
  {
    CardIsFirst(b.cards, o.tier);
    forall card | IsCardOf(b.cards, o.tier, card) && FirstCard(b.cards, o.tier).Some? ensures card == FirstCard(b.cards, o.tier).value {
      OneCard(b.cards, o.tier, card, FirstCard(b.cards, o.tier).value);
    }
    assert NoCard(b.cards, o.tier) ==> forall card :: !IsCardOf(b.cards, o.tier, card);
    hide IsCardOf, NoCard, FirstCard;
  }

  lemma OneCard(cards: seq<Card>, tier: string, x: Card, y: Card)
    requires IsCardOf(cards, tier, x) && IsCardOf(cards, tier, y)
    ensures x == y
  {
    var i :| 0 <= i < |cards| && cards[i] == x && x.tier == tier && forall j :: 0 <= j < i ==> cards[j].tier != tier;
    var k :| 0 <= k < |cards| && cards[k] == y && y.tier == tier && forall j :: 0 <= j < k ==> cards[j].tier != tier;
    assert i == k;
  }

  predicate ByTier(o: Overlap, p: Overlap) { Less(o.tier, p.tier) }

  lemma {:induction false} OverlapsHold(b: Bundle, req: Request, sel: Selector, tiers: seq<string>)
    requires Increasing(Less, tiers) && forall t :: t in tiers ==> t in b.selectors
    ensures Increasing(ByTier, OverlapsOf(b, req, sel, tiers))
    ensures forall o :: o in OverlapsOf(b, req, sel, tiers) <==> o.tier in tiers && MayOverlap(b, req, sel, o)
  {
    hide Contradicts, MatchedCount, Less, MayOverlap;
    if tiers != [] {
      var n := |tiers| - 1;
      assert tiers == tiers[..n] + [tiers[n]];
      OverlapsHold(b, req, sel, tiers[..n]);
      var before := OverlapsOf(b, req, sel, tiers[..n]);
      forall o { OverlapIs(b, req, sel, o); }
      forall i | 0 <= i < |before| ensures Less(before[i].tier, tiers[n]) {
        assert before[i] in before;
        var j :| 0 <= j < n && tiers[..n][j] == before[i].tier;
        assert Less(tiers[j], tiers[n]);
      }
    }
  }

  /** A Tier that shares a pair with the claim, as its card names it, with the
      selector attaching would leave and how much of its own that is. */
  ghost predicate MayAttach(b: Bundle, req: Request, c: Candidate) {
    && c.tier in b.selectors && c.selector == b.selectors[c.tier]
    && IsShared(c.widened, c.selector, req.selector) && c.widened != map[]
    && c.satisfied == |c.widened| && c.of == |c.selector|
    && (NoCard(b.cards, c.tier) ==> c.name == c.tier && c.team == "" && c.environment == "")
    && forall card :: IsCardOf(b.cards, c.tier, card) ==> c.name == card.name && c.team == card.team && c.environment == card.environment
  }

  lemma CandidateIs(b: Bundle, req: Request, c: Candidate)
    ensures MayAttach(b, req, c) <==>
      c.tier in b.selectors && SharedPairs(b.selectors[c.tier], req.selector) != map[] && c == CandidateFor(b, req.selector, c.tier)
  {
    CardIsFirst(b.cards, c.tier);
    forall card | IsCardOf(b.cards, c.tier, card) && FirstCard(b.cards, c.tier).Some? ensures card == FirstCard(b.cards, c.tier).value {
      OneCard(b.cards, c.tier, card, FirstCard(b.cards, c.tier).value);
    }
    assert NoCard(b.cards, c.tier) ==> forall card :: !IsCardOf(b.cards, c.tier, card);
    if c.tier in b.selectors {
      SharedIs(b.selectors[c.tier], req.selector);
      if IsShared(c.widened, b.selectors[c.tier], req.selector) {
        OneShared(c.widened, SharedPairs(b.selectors[c.tier], req.selector), b.selectors[c.tier], req.selector);
      }
    }
    hide IsCardOf, NoCard, FirstCard, IsShared, SharedPairs;
  }

  /** The whole preview over what was authored and reported: what the effective
      selector takes of the ungoverned rows, how each is read; every other Tier
      it does not contradict, in order; and every Tier that shares a pair with
      the claim, the nearest first. */
  lemma PreviewExactly(b: Bundle, req: Request) returns (sel: Selector)
    ensures IsEffective(b, req, sel)
    ensures PreviewOf(b, req).matched == Reach(
      |Filter(row => Counts(sel, row), b.collectors)|,
      |Filter((row: CollectorRow) => Counts(sel, row) && row.ungoverned == "served", b.collectors)|,
      |Filter((row: CollectorRow) => Counts(sel, row) && row.ungoverned == "foreign", b.collectors)|)
    ensures Increasing(ByTier, PreviewOf(b, req).overlaps)
    ensures forall o :: o in PreviewOf(b, req).overlaps <==> MayOverlap(b, req, sel, o)
    ensures Increasing(Ahead, PreviewOf(b, req).candidates)
    ensures forall c :: c in PreviewOf(b, req).candidates <==> MayAttach(b, req, c)
  {
    sel := Judged(b, req);
    if req.tier in b.selectors { SharedIs(b.selectors[req.tier], req.selector); }
    hide SharedPairs, IsShared, MayOverlap, MayAttach, CandidateFor, Ahead, Less, Counts;
    ReachCounts(sel, b.collectors);
    OverlapsHold(b, req, sel, Ascending(b.selectors.Keys));
    forall o | MayOverlap(b, req, sel, o) ensures o.tier in b.selectors { OverlapIs(b, req, sel, o); }
    CandidatesAreRanked(b, req);
    forall c { CandidateIs(b, req, c); }
  }
}
