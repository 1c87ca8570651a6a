/** A team's effective palette: the walk down the chain, the set equation it
    refines, its provenance, and what a policy edit can and cannot move. */
module Palette {
  import opened Base
  import opened TeamTree
  import opened CatalogueIndex
  import opened AllowList

  datatype Origin = OriginDefault | OriginAllowList | OriginGrant

  datatype PaletteEntry = PaletteEntry(component: Component, origin: Origin, grant: string, grantedBy: string, grantedTo: string)

  // --------------------------------------------------------------- the walk

  /** Whether the component is in so far, and the Grant that last let it in. */
  datatype Standing = Standing(allowed: bool, via: Option<Grant>)

  function AfterList(p: Policy, u: string, c: Component, s: Standing): Standing {
    if p.ListAdmits(u, c) then s else Standing(false, None)
  }

  function StepDown(p: Policy, u: string, c: Component, s: Standing): Standing {
    var listed := AfterList(p, u, c, s);
    if listed.allowed then listed
    else
      var g := FirstSelecting(p.GrantsAt(u), c);
      if g.None? then listed else Standing(true, g)
  }

  function StandingAt(p: Policy, chain: seq<string>, c: Component): Standing {
    if chain == [] then Standing(true, None)
    else StepDown(p, chain[|chain| - 1], c, StandingAt(p, chain[..|chain| - 1], c))
  }

  predicate AnyList(p: Policy, chain: seq<string>) {
    exists u :: u in chain && u in p.lists
  }

  function EntryFor(p: Policy, chain: seq<string>, c: Component): Option<PaletteEntry> {
    var s := StandingAt(p, chain, c);
    if !s.allowed then None
    else if s.via.Some? then
      var g := s.via.value;
      Some(PaletteEntry(c, OriginGrant, g.id, if g.owner in p.tree.owners then p.tree.owners[g.owner] else "", g.team))
    else Some(PaletteEntry(c, if AnyList(p, chain) then OriginAllowList else OriginDefault, "", "", ""))
  }

  function EntriesFor(p: Policy, chain: seq<string>, cs: seq<Component>): seq<PaletteEntry> {
    if cs == [] then []
    else
      var e := EntryFor(p, chain, cs[|cs| - 1]);
      EntriesFor(p, chain, cs[..|cs| - 1]) + (if e.Some? then [e.value] else [])
  }

  method EffectivePalette(p: Policy, team: string) returns (r: Result<seq<PaletteEntry>, string>)
    requires WellFormed(p.tree)
    ensures r.Ok? <==> team in p.tree.teams
    ensures r.Ok? ==> r.value == EntriesFor(p, Chain(p.tree, team), p.cat)
  {
    var up := ChainUp(p.tree, team);
    if up.Err? { return Err(team); }
    var anyList := HasList(p, up.value);
    var entries: seq<PaletteEntry> := [];
    for k := 0 to |p.cat|
      invariant entries == EntriesFor(p, up.value, p.cat[..k])
    {
      assert p.cat[..k + 1][..k] == p.cat[..k];
      var e := JudgeComponent(p, up.value, anyList, p.cat[k]);
      if e.Some? { entries := entries + [e.value]; }
    }
    assert p.cat[..|p.cat|] == p.cat;
    return Ok(entries);
  }

  method HasList(p: Policy, chain: seq<string>) returns (any: bool)
    ensures any <==> AnyList(p, chain)
  {
    for i := 0 to |chain|
      invariant !AnyList(p, chain[..i])
    {
      assert chain[..i + 1] == chain[..i] + [chain[i]];
      if chain[i] in p.lists { return true; }
    }
    assert chain[..|chain|] == chain;
    return false;
  }

  method JudgeComponent(p: Policy, chain: seq<string>, anyList: bool, c: Component) returns (e: Option<PaletteEntry>)
    requires anyList <==> AnyList(p, chain)
    ensures e == EntryFor(p, chain, c)
  {
    var s := WalkDown(p, chain, c);
    if !s.allowed { return None; }
    if s.via.Some? {
      var g := s.via.value;
      return Some(PaletteEntry(c, OriginGrant, g.id, if g.owner in p.tree.owners then p.tree.owners[g.owner] else "", g.team));
    }
    return Some(PaletteEntry(c, if anyList then OriginAllowList else OriginDefault, "", "", ""));
  }

  method WalkDown(p: Policy, chain: seq<string>, c: Component) returns (s: Standing)
    ensures s == StandingAt(p, chain, c)
  {
    var allowed, via := true, None;
    for i := 0 to |chain|
      invariant Standing(allowed, via) == StandingAt(p, chain[..i], c)
      invariant !allowed ==> via == None
    {
      var u := chain[i];
      assert chain[..i + 1][..i] == chain[..i];
      if u in p.lists && !SelectsAny(p.lists[u].allow, c) { allowed, via := false, None; }
      if !allowed {
        var gs := p.GrantsAt(u);
        for k := 0 to |gs|
          invariant !allowed && via == None
          invariant FirstSelecting(gs, c) == FirstSelecting(gs[k..], c)
        {
          if SelectsAny(gs[k].adds, c) {
            allowed, via := true, Some(gs[k]);
            break;
          }
        }
      }
    }
    assert chain[..|chain|] == chain;
    s := Standing(allowed, via);
  }

  // -------------------------------------------------------- the set equation

  /** The policy as the tree states it: a team may use what its parent may and
      its own list admits, and what a Grant targeting it adds. */
  ghost predicate MayUse(p: Policy, team: string, c: Component)
    requires WellFormed(p.tree) && team in p.tree.teams
    decreases Pos(p.tree)[team]
  {
    || (ParentMayUse(p, team, c) && p.ListAdmits(team, c))
    || FirstSelecting(p.GrantsAt(team), c).Some?
  }

  /** Above a root there is the whole Catalogue. */
  ghost predicate ParentMayUse(p: Policy, team: string, c: Component)
    requires WellFormed(p.tree) && team in p.tree.teams
    decreases Pos(p.tree)[team], 0
  {
    var parent := p.tree.teams[team].parent;
    parent == "" || MayUse(p, parent, c)
  }

  lemma {:induction false} WalkIsThePolicy(p: Policy, team: string, c: Component)
    requires WellFormed(p.tree) && team in p.tree.teams
    ensures StandingAt(p, Chain(p.tree, team), c).allowed <==> MayUse(p, team, c)
    decreases Pos(p.tree)[team]
  {
    var parent := p.tree.teams[team].parent;
    if parent != "" {
      WalkIsThePolicy(p, parent, c);
      assert Chain(p.tree, team)[..|Chain(p.tree, team)| - 1] == Chain(p.tree, parent);
    }
  }

  ghost function PaletteSet(p: Policy, team: string): set<Component>
    requires WellFormed(p.tree) && team in p.tree.teams
  {
    set c | c in p.cat && MayUse(p, team, c)
  }

  ghost function ParentSet(p: Policy, team: string): set<Component>
    requires WellFormed(p.tree) && team in p.tree.teams
  {
    var parent := p.tree.teams[team].parent;
    if parent == "" then set c | c in p.cat else PaletteSet(p, parent)
  }

  ghost function Listed(p: Policy, team: string): set<Component> {
    set c | c in p.cat && p.ListAdmits(team, c)
  }

  ghost function Granted(p: Policy, team: string): set<Component> {
    set c | c in p.cat && exists g :: g in p.GrantsAt(team) && SelectsAny(g.adds, c)
  }

  /** The palette is the parent's palette met with the team's list and joined
      with its Grants. */
  lemma PaletteEquation(p: Policy, team: string)
    requires WellFormed(p.tree) && team in p.tree.teams
    ensures PaletteSet(p, team) == ParentSet(p, team) * Listed(p, team) + Granted(p, team)
  {
    forall c | c in p.cat
      ensures c in PaletteSet(p, team) <==> c in ParentSet(p, team) * Listed(p, team) + Granted(p, team)
    {
      assert FirstSelecting(p.GrantsAt(team), c).Some? <==> c in Granted(p, team);
      assert ParentMayUse(p, team, c) <==> c in ParentSet(p, team);
      assert p.ListAdmits(team, c) <==> c in Listed(p, team);
      assert MayUse(p, team, c) <==> c in PaletteSet(p, team);
    }
    forall c | c in Granted(p, team) || c in ParentSet(p, team) ensures c in p.cat { }
  }

  /** And the list the method returns holds exactly it. */
  lemma PaletteIsTheSet(p: Policy, team: string, c: Component)
    requires WellFormed(p.tree) && team in p.tree.teams
    ensures c in PaletteSet(p, team) <==> exists e :: e in EntriesFor(p, Chain(p.tree, team), p.cat) && e.component == c
  {
    var chain := Chain(p.tree, team);
    WalkIsThePolicy(p, team, c);
    forall e ensures e in EntriesFor(p, chain, p.cat) <==> e.component in p.cat && EntryFor(p, chain, e.component) == Some(e) {
      EntriesMeaning(p, chain, p.cat, e);
    }
    if c in PaletteSet(p, team) {
      var e := EntryFor(p, chain, c).value;
      assert e.component == c && e in EntriesFor(p, chain, p.cat);
    }
  }

  lemma {:induction false} EntriesMeaning(p: Policy, chain: seq<string>, cs: seq<Component>, e: PaletteEntry)
    ensures e in EntriesFor(p, chain, cs) <==> e.component in cs && EntryFor(p, chain, e.component) == Some(e)
  {
    if cs != [] {
      var n := |cs| - 1;
      assert cs == cs[..n] + [cs[n]];
      EntriesMeaning(p, chain, cs[..n], e);
      hide StandingAt;
    }
  }

  // ------------------------------------------------------------- provenance

  ghost predicate Excluded(p: Policy, chain: seq<string>, c: Component) {
    exists i :: 0 <= i < |chain| && !p.ListAdmits(chain[i], c)
  }

  /** The last place the component had to be let back in, and by what. */
  ghost predicate ReadmittedAt(p: Policy, chain: seq<string>, c: Component, i: nat, g: Grant)
    requires i < |chain|
  {
    && !AfterList(p, chain[i], c, StandingAt(p, chain[..i], c)).allowed
    && FirstSelecting(p.GrantsAt(chain[i]), c) == Some(g)
    && forall j :: i < j < |chain| ==> p.ListAdmits(chain[j], c)
  }

  lemma ReadmittedEarlier(p: Policy, chain: seq<string>, c: Component, i: nat, g: Grant)
    requires i < |chain| - 1 && ReadmittedAt(p, chain[..|chain| - 1], c, i, g) && p.ListAdmits(chain[|chain| - 1], c)
    ensures ReadmittedAt(p, chain, c, i, g)
  {
    assert chain[..|chain| - 1][..i] == chain[..i];
    hide StandingAt, AfterList, FirstSelecting;
  }

  /** A component in the palette is there by a Grant exactly when some list on
      the chain excludes it, and then by the Grant that last let it back in. */
  lemma {:induction false} Provenance(p: Policy, chain: seq<string>, c: Component)
    requires StandingAt(p, chain, c).allowed
    ensures StandingAt(p, chain, c).via.Some? <==> Excluded(p, chain, c)
    ensures StandingAt(p, chain, c).via.Some? ==>
      exists i :: 0 <= i < |chain| && ReadmittedAt(p, chain, c, i, StandingAt(p, chain, c).via.value)
  {
    if chain != [] {
      var n := |chain| - 1;
      var above := StandingAt(p, chain[..n], c);
      var now := StandingAt(p, chain, c);
      if AfterList(p, chain[n], c, above).allowed {
        Provenance(p, chain[..n], c);
        assert Excluded(p, chain, c) <==> Excluded(p, chain[..n], c);
        if now.via.Some? {
          var i :| 0 <= i < |chain[..n]| && ReadmittedAt(p, chain[..n], c, i, now.via.value);
          ReadmittedEarlier(p, chain, c, i, now.via.value);
        }
      } else {
        assert ReadmittedAt(p, chain, c, n, now.via.value);
        if p.ListAdmits(chain[n], c) { NotAllowedWasExcluded(p, chain[..n], c); }
      }
    }
  }

  lemma {:induction false} NotAllowedWasExcluded(p: Policy, chain: seq<string>, c: Component)
    requires !StandingAt(p, chain, c).allowed
    ensures exists i :: 0 <= i < |chain| && !p.ListAdmits(chain[i], c)
  {
    var n := |chain| - 1;
    if p.ListAdmits(chain[n], c) {
      NotAllowedWasExcluded(p, chain[..n], c);
      var i :| 0 <= i < |chain[..n]| && !p.ListAdmits(chain[..n][i], c);
      assert !p.ListAdmits(chain[i], c);
    }
  }

  /** The Grant named is the least by id of those targeting that team that
      select the component. */
  lemma LeastGrant(p: Policy, u: string, c: Component, g: Grant, h: Grant)
    requires Targeted(p.byTarget, p.grants)
    requires FirstSelecting(p.GrantsAt(u), c) == Some(g)
    requires h in p.grants.Values && h.id in p.grants && p.grants[h.id] == h && h.team == u && SelectsAny(h.adds, c)
    ensures g == h || Less(g.id, h.id)
  {
    assert h in p.byTarget[u];
    FirstIsLeast(p.GrantsAt(u), c, h);
  }

  lemma {:induction false} FirstIsLeast(gs: seq<Grant>, c: Component, h: Grant)
    requires Increasing(ById, gs) && h in gs && SelectsAny(h.adds, c)
    ensures FirstSelecting(gs, c).Some? && (FirstSelecting(gs, c).value == h || Less(FirstSelecting(gs, c).value.id, h.id))
  {
    if SelectsAny(gs[0].adds, c) {
      var i :| 0 <= i < |gs| && gs[i] == h;
      assert i > 0 ==> ById(gs[0], gs[i]);
    } else {
      assert h in gs[1..];
      FirstIsLeast(gs[1..], c, h);
    }
  }

  /** Widening comes only from strictly above: what a team may use and its
      parent may not is there by a Grant whose author's team is a proper
      ancestor of it, and a root is never widened. */
  lemma WideningIsFromAbove(p: Policy, team: string, c: Component)
    requires Loaded(p) && team in p.tree.teams && MayUse(p, team, c)
    ensures p.tree.teams[team].parent == "" ==> p.ListAdmits(team, c)
    ensures !ParentMayUse(p, team, c) ==>
      exists g :: g in p.GrantsAt(team) && g.team == team && SelectsAny(g.adds, c) && g.owner in p.tree.owners
               && ProperAncestor(p.tree, p.tree.owners[g.owner], team)
  {
  }

  // ----------------------------------------------------------- policy edits

  /** `q` admits at least what `p` does, team by team: longer lists, more
      Grants. */
  ghost predicate Loosens(p: Policy, q: Policy) {
    && q.tree == p.tree && q.cat == p.cat
    && (forall u, c :: p.ListAdmits(u, c) ==> q.ListAdmits(u, c))
    && (forall u, g :: g in p.GrantsAt(u) ==> g in q.GrantsAt(u))
  }

  lemma {:induction false} MayUseIsMonotone(p: Policy, q: Policy, team: string, c: Component)
    requires Loosens(p, q) && WellFormed(p.tree) && team in p.tree.teams && MayUse(p, team, c)
    ensures MayUse(q, team, c)
    decreases Pos(p.tree)[team]
  {
    if FirstSelecting(p.GrantsAt(team), c).Some? {
      assert FirstSelecting(p.GrantsAt(team), c).value in q.GrantsAt(team);
    } else if p.tree.teams[team].parent != "" {
      MayUseIsMonotone(p, q, p.tree.teams[team].parent, c);
    }
  }

  /** Loosening a policy anywhere never takes a component from anyone. */
  lemma PaletteIsMonotone(p: Policy, q: Policy, team: string)
    requires Loosens(p, q) && WellFormed(p.tree) && team in p.tree.teams
    ensures PaletteSet(p, team) <= PaletteSet(q, team)
  {
    forall c | c in PaletteSet(p, team) ensures c in PaletteSet(q, team) { MayUseIsMonotone(p, q, team, c); }
  }

  /** Without Grants a palette only shrinks on the way down. */
  lemma {:induction false} NarrowsDownTheTree(p: Policy, above: string, team: string)
    requires WellFormed(p.tree) && team in p.tree.teams && above in Chain(p.tree, team)
    requires forall u :: p.GrantsAt(u) == []
    ensures above in p.tree.teams && PaletteSet(p, team) <= PaletteSet(p, above)
    decreases Pos(p.tree)[team]
  {
    ChainBelow(p.tree, team, above);
    if above != team {
      var parent := p.tree.teams[team].parent;
      NarrowsDownTheTree(p, above, parent);
      forall c | c in PaletteSet(p, team) ensures c in PaletteSet(p, parent) {
        assert p.GrantsAt(team) == [] && MayUse(p, team, c);
        assert ParentMayUse(p, team, c);
      }
    }
  }

  /** The two policies differ at most in what they say at `u`. */
  ghost predicate EditedAt(p: Policy, q: Policy, u: string) {
    && q.tree == p.tree && q.cat == p.cat
    && (forall v :: v != u ==> (v in p.lists <==> v in q.lists) && (v in p.lists ==> p.lists[v] == q.lists[v]))
    && (forall v :: v != u ==> p.GrantsAt(v) == q.GrantsAt(v))
  }

  lemma {:induction false} StandingReadsTheChain(p: Policy, q: Policy, u: string, chain: seq<string>, c: Component)
    requires EditedAt(p, q, u) && u !in chain
    ensures StandingAt(p, chain, c) == StandingAt(q, chain, c)
    ensures AnyList(p, chain) == AnyList(q, chain)
  {
    if chain != [] { StandingReadsTheChain(p, q, u, chain[..|chain| - 1], c); }
  }

  lemma {:induction false} EntriesReadTheChain(p: Policy, q: Policy, u: string, chain: seq<string>, cs: seq<Component>)
    requires EditedAt(p, q, u) && u !in chain
    ensures EntriesFor(p, chain, cs) == EntriesFor(q, chain, cs)
  {
    if cs != [] {
      EntriesReadTheChain(p, q, u, chain, cs[..|cs| - 1]);
      StandingReadsTheChain(p, q, u, chain, cs[|cs| - 1]);
    }
  }

  /** An edit to one team's list or Grants reaches that team's subtree and no
      further: every other palette is the same list, provenance and all. */
  lemma EditsStayInTheSubtree(p: Policy, q: Policy, u: string, team: string)
    requires EditedAt(p, q, u) && WellFormed(p.tree) && team in p.tree.teams && u !in Chain(p.tree, team)
    ensures EntriesFor(q, Chain(q.tree, team), q.cat) == EntriesFor(p, Chain(p.tree, team), p.cat)
  {
    EntriesReadTheChain(p, q, u, Chain(p.tree, team), p.cat);
  }

  // ------------------------------------------------------------------ lookup

  /** May the team use (class, type)? Resolved through the Catalogue index. */
  method Allows(p: Policy, catalogue: Catalogue, team: string, cls: string, typ: string) returns (r: Result<bool, string>)
    requires WellFormed(p.tree) && catalogue.Indexed() && ValidCatalogue(catalogue.components) && p.cat == catalogue.components
    ensures catalogue.Lookup(cls, typ).None? ==> r == Ok(false)
    ensures catalogue.Lookup(cls, typ).Some? ==> (r.Ok? <==> team in p.tree.teams)
    ensures catalogue.Lookup(cls, typ).Some? && r.Ok? ==> (r.value <==> MayUse(p, team, catalogue.Lookup(cls, typ).value))
  {
    var found := catalogue.Lookup(cls, typ);
    if found.None? { return Ok(false); }
    var pal := EffectivePalette(p, team);
    if pal.Err? { return Err(pal.error); }
    LookupIsListed(catalogue, cls, typ);
    PaletteIsTheSet(p, team, found.value);
    hide EntriesFor, MayUse;
    forall e | e in pal.value && KeyOf(e.component) == KeyOf(found.value) ensures e.component == found.value {
      PaletteIsTheSet(p, team, e.component);
      AtMostOneAnswers(p.cat, found.value.cls, found.value.typ, found.value, e.component);
    }
    var listed := ListsKey(pal.value, found.value);
    return Ok(listed);
  }

  method ListsKey(entries: seq<PaletteEntry>, c: Component) returns (listed: bool)
    ensures listed <==> exists e :: e in entries && KeyOf(e.component) == KeyOf(c)
  {
    for i := 0 to |entries|
      invariant forall k :: 0 <= k < i ==> KeyOf(entries[k].component) != KeyOf(c)
    {
      if entries[i].component.cls == c.cls && entries[i].component.typ == c.typ { return true; }
    }
    return false;
  }

  lemma LookupIsListed(catalogue: Catalogue, cls: string, typ: string)
    requires catalogue.Indexed() && ValidCatalogue(catalogue.components) && catalogue.Lookup(cls, typ).Some?
    ensures catalogue.Lookup(cls, typ).value in catalogue.components
    ensures WellDeclared(catalogue.Lookup(cls, typ).value)
  {
  }

  /** A component answers the same under its type and under its alias. */
  lemma AliasIsOneAnswer(p: Policy, catalogue: Catalogue, team: string, c: Component)
    requires WellFormed(p.tree) && catalogue.Indexed() && ValidCatalogue(catalogue.components) && team in p.tree.teams
    requires c in catalogue.components && c.deprecatedType != ""
    ensures catalogue.Lookup(c.cls, c.deprecatedType).Some? && catalogue.Lookup(c.cls, c.typ).Some?
    ensures MayUse(p, team, catalogue.Lookup(c.cls, c.deprecatedType).value) == MayUse(p, team, catalogue.Lookup(c.cls, c.typ).value)
  {
    catalogue.AliasFindsTheComponent(c);
  }
}
