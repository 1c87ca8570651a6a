/** The list a palette query returns, over the policy as authored: which
    components, in what order, and why each is there. */
module PaletteMeaning {
  import opened Base
  import opened TextBytes
  import opened Globs
  import opened TeamTree
  import opened CatalogueIndex
  import opened AllowList
  import opened Palette

  // -------------------------------------------------------- the policy, raw

  /** `u` is the team or one its parent pointers lead to. */
  ghost predicate AtOrAbove(t: Tree, u: string, team: string)
    requires WellFormed(t) && team in t.teams
    decreases Pos(t)[team]
  {
    u == team || (t.teams[team].parent != "" && AtOrAbove(t, u, t.teams[team].parent))
  }

  lemma {:induction false} AboveIsOnTheChain(t: Tree, u: string, team: string)
    requires WellFormed(t) && team in t.teams
    ensures AtOrAbove(t, u, team) <==> u in Chain(t, team)
    ensures AtOrAbove(t, u, team) ==> u in t.teams && (u == team || Pos(t)[u] < Pos(t)[team])
    decreases Pos(t)[team]
  {
    if t.teams[team].parent != "" { AboveIsOnTheChain(t, u, t.teams[team].parent); }
  }

  /** An entry of the component's class whose pattern matches its type or its
      former type. */
  ghost predicate Selected(entries: seq<Entry>, c: Component) {
    exists e :: e in entries && e.cls == c.cls &&
      (PathMatch(Utf8(e.pattern), Utf8(c.typ)) || (c.deprecatedType != "" && PathMatch(Utf8(e.pattern), Utf8(c.deprecatedType))))
  }

  lemma SelectedIs(entries: seq<Entry>, c: Component)
    ensures SelectsAny(entries, c) <==> Selected(entries, c)
  {
    if e :| e in entries && e.Selects(c) { assert Selected(entries, c); }
    if Selected(entries, c) {
      var e :| e in entries && e.cls == c.cls &&
        (PathMatch(Utf8(e.pattern), Utf8(c.typ)) || (c.deprecatedType != "" && PathMatch(Utf8(e.pattern), Utf8(c.deprecatedType))));
      assert e.Selects(c);
    }
  }

  /** A team without a list lets everything through. */
  ghost predicate ListAllows(p: Policy, u: string, c: Component) {
    u in p.lists ==> Selected(p.lists[u].allow, c)
  }

  /** A Grant of the policy targets the team and selects the component. */
  ghost predicate Grants(p: Policy, u: string, c: Component, g: Grant) {
    g.id in p.grants && p.grants[g.id] == g && g.team == u && Selected(g.adds, c)
  }

  /** A team may use what its parent may and its own list allows, and what a
      Grant targeting it selects. */
  ghost predicate May(p: Policy, team: string, c: Component)
    requires WellFormed(p.tree) && team in p.tree.teams
    decreases Pos(p.tree)[team]
  {
    || ((p.tree.teams[team].parent == "" || May(p, p.tree.teams[team].parent, c)) && ListAllows(p, team, c))
    || exists g :: Grants(p, team, c, g)
  }

  lemma FirstIsGranted(p: Policy, u: string, c: Component)
    requires Targeted(p.byTarget, p.grants)
    ensures FirstSelecting(p.GrantsAt(u), c).Some? <==> exists g :: Grants(p, u, c, g)
    ensures FirstSelecting(p.GrantsAt(u), c).Some? ==>
      var g := FirstSelecting(p.GrantsAt(u), c).value;
      Grants(p, u, c, g) && forall h :: Grants(p, u, c, h) ==> h == g || Less(g.id, h.id)
  {
    hide Selected, SelectsAny, Less;
    if FirstSelecting(p.GrantsAt(u), c).Some? {
      var g := FirstSelecting(p.GrantsAt(u), c).value;
      SelectedIs(g.adds, c);
      assert Grants(p, u, c, g);
      forall h | Grants(p, u, c, h) ensures h == g || Less(g.id, h.id) {
        SelectedIs(h.adds, c);
        LeastGrant(p, u, c, g, h);
      }
    }
    if g :| Grants(p, u, c, g) {
      SelectedIs(g.adds, c);
      assert g in p.GrantsAt(u);
      assert FirstSelecting(p.GrantsAt(u), c).Some?;
    }
  }

  lemma {:induction false} MayIs(p: Policy, team: string, c: Component)
    requires WellFormed(p.tree) && team in p.tree.teams && Targeted(p.byTarget, p.grants)
    ensures MayUse(p, team, c) <==> May(p, team, c)
    decreases Pos(p.tree)[team]
  {
    FirstIsGranted(p, team, c);
    if team in p.lists { SelectedIs(p.lists[team].allow, c); }
    if p.tree.teams[team].parent != "" { MayIs(p, p.tree.teams[team].parent, c); }
    assert ParentMayUse(p, team, c) <==> p.tree.teams[team].parent == "" || May(p, p.tree.teams[team].parent, c);
    assert p.ListAdmits(team, c) <==> ListAllows(p, team, c);
    hide Targeted, ParentMayUse, Policy.ListAdmits, ListAllows, Selected, SelectsAny, Grants, FirstSelecting;
  }

  // ------------------------------------------------------------ why it is there

  /** At `u` the component was out, the Grant is the least of those there that
      select it, and every list from there down to the team lets it through. */
  ghost predicate CreditedAt(p: Policy, team: string, c: Component, u: string, g: Grant)
    requires WellFormed(p.tree) && team in p.tree.teams
  {
    && u in p.tree.teams && AtOrAbove(p.tree, u, team)
    && !((p.tree.teams[u].parent == "" || May(p, p.tree.teams[u].parent, c)) && ListAllows(p, u, c))
    && Grants(p, u, c, g) && (forall h :: Grants(p, u, c, h) ==> h == g || Less(g.id, h.id))
    && forall v :: v in p.tree.teams && v != u && AtOrAbove(p.tree, u, v) && AtOrAbove(p.tree, v, team) ==> ListAllows(p, v, c)
  }

  lemma CreditFromAbove(p: Policy, team: string, c: Component, u: string, g: Grant)
    requires WellFormed(p.tree) && team in p.tree.teams && p.tree.teams[team].parent != ""
    requires CreditedAt(p, p.tree.teams[team].parent, c, u, g) && ListAllows(p, team, c)
    ensures CreditedAt(p, team, c, u, g)
  {
    var parent := p.tree.teams[team].parent;
    hide Grants, ListAllows, May, WellFormed;
    assert AtOrAbove(p.tree, u, team);
    forall v | v in p.tree.teams && v != u && AtOrAbove(p.tree, u, v) && AtOrAbove(p.tree, v, team) ensures ListAllows(p, v, c) {
      assert v == team || AtOrAbove(p.tree, v, parent);
    }
  }

  /** What the walk holds on entering the team's own step. */
  ghost function StandingAbove(p: Policy, team: string, c: Component): Standing
    requires WellFormed(p.tree) && team in p.tree.teams
  {
    if p.tree.teams[team].parent == "" then Standing(true, None) else StandingAt(p, Chain(p.tree, p.tree.teams[team].parent), c)
  }

  lemma StandingSteps(p: Policy, team: string, c: Component)
    requires WellFormed(p.tree) && team in p.tree.teams && Targeted(p.byTarget, p.grants)
    ensures StandingAt(p, Chain(p.tree, team), c) == StepDown(p, team, c, StandingAbove(p, team, c))
    ensures StandingAbove(p, team, c).allowed <==> p.tree.teams[team].parent == "" || May(p, p.tree.teams[team].parent, c)
    ensures p.ListAdmits(team, c) <==> ListAllows(p, team, c)
  {
    var chain, parent := Chain(p.tree, team), p.tree.teams[team].parent;
    assert parent != "" ==> chain[..|chain| - 1] == Chain(p.tree, parent);
    if parent != "" { WalkIsThePolicy(p, parent, c); MayIs(p, parent, c); }
    if team in p.lists { SelectedIs(p.lists[team].allow, c); }
    hide Targeted, Selected, SelectsAny, MayUse, WellFormed, May, StepDown;
  }

  lemma CreditHere(p: Policy, team: string, c: Component, g: Grant)
    requires WellFormed(p.tree) && team in p.tree.teams
    requires !((p.tree.teams[team].parent == "" || May(p, p.tree.teams[team].parent, c)) && ListAllows(p, team, c))
    requires Grants(p, team, c, g) && forall h :: Grants(p, team, c, h) ==> h == g || Less(g.id, h.id)
    ensures CreditedAt(p, team, c, team, g)
  {
    hide May, Grants, ListAllows, WellFormed, Chain;
    forall v | v in p.tree.teams && AtOrAbove(p.tree, team, v) && AtOrAbove(p.tree, v, team) ensures v == team {
      AboveIsOnTheChain(p.tree, team, v);
      AboveIsOnTheChain(p.tree, v, team);
    }
    assert AtOrAbove(p.tree, team, team);
    hide AtOrAbove;
  }

  lemma {:induction false} CreditIs(p: Policy, team: string, c: Component) returns (u: string)
    requires WellFormed(p.tree) && team in p.tree.teams && Targeted(p.byTarget, p.grants)
    requires StandingAt(p, Chain(p.tree, team), c).allowed && StandingAt(p, Chain(p.tree, team), c).via.Some?
    ensures CreditedAt(p, team, c, u, StandingAt(p, Chain(p.tree, team), c).via.value)
    decreases Pos(p.tree)[team]
  {
    hide Targeted, FirstSelecting, Chain, WellFormed, StandingAt, May, CreditedAt, ListAllows, Grants, Policy.ListAdmits;
    var above := StandingAbove(p, team, c);
    StandingSteps(p, team, c);
    FirstIsGranted(p, team, c);
    if above.allowed && ListAllows(p, team, c) {
      u := CreditIs(p, p.tree.teams[team].parent, c);
      CreditFromAbove(p, team, c, u, above.via.value);
    } else {
      u := team;
      CreditHere(p, team, c, StandingAt(p, Chain(p.tree, team), c).via.value);
    }
  }

  /** Some list on the way from the root leaves the component out. */
  ghost predicate LeftOut(p: Policy, team: string, c: Component)
    requires WellFormed(p.tree) && team in p.tree.teams
  {
    exists u :: AtOrAbove(p.tree, u, team) && !ListAllows(p, u, c)
  }

  ghost predicate SomeList(p: Policy, team: string)
    requires WellFormed(p.tree) && team in p.tree.teams
  {
    exists u :: AtOrAbove(p.tree, u, team) && u in p.lists
  }

  /** The entry says why its component is there: by the Grant that last let it
      back in where some list leaves it out, by the lists where there are any,
      and by default where there are none. */
  ghost predicate Explains(p: Policy, team: string, e: PaletteEntry)
    requires WellFormed(p.tree) && team in p.tree.teams
  {
    if LeftOut(p, team, e.component) then
      && e.origin == OriginGrant
      && exists u, g ::
           && CreditedAt(p, team, e.component, u, g) && e.grant == g.id && e.grantedTo == u
           && e.grantedBy == if g.owner in p.tree.owners then p.tree.owners[g.owner] else ""
    else
      && e.origin == (if SomeList(p, team) then OriginAllowList else OriginDefault)
      && e.grant == "" && e.grantedBy == "" && e.grantedTo == ""
  }

  lemma EntryExplains(p: Policy, team: string, c: Component)
    requires WellFormed(p.tree) && team in p.tree.teams && Targeted(p.byTarget, p.grants)
    ensures EntryFor(p, Chain(p.tree, team), c).Some? <==> May(p, team, c)
    ensures May(p, team, c) ==> var e := EntryFor(p, Chain(p.tree, team), c).value; e.component == c && Explains(p, team, e)
  {
    hide StandingAt, MayUse, May, Chain, Targeted, WellFormed, LeftOut, SomeList, Excluded, AnyList, ReadmittedAt, CreditedAt, Policy.ListAdmits;
    var chain := Chain(p.tree, team);
    WalkIsThePolicy(p, team, c);
    MayIs(p, team, c);
    if May(p, team, c) {
      Provenance(p, chain, c);
      LeftOutIs(p, team, c);
      if StandingAt(p, chain, c).via.Some? {
        var u := CreditIs(p, team, c);
        assert u == StandingAt(p, chain, c).via.value.team by { CreditTargets(p, team, c, u, StandingAt(p, chain, c).via.value); }
      }
    }
  }

  lemma CreditTargets(p: Policy, team: string, c: Component, u: string, g: Grant)
    requires WellFormed(p.tree) && team in p.tree.teams && CreditedAt(p, team, c, u, g)
    ensures g.team == u
  {
    hide May, ListAllows, AtOrAbove, Selected;
  }

  lemma LeftOutIs(p: Policy, team: string, c: Component)
    requires WellFormed(p.tree) && team in p.tree.teams
    ensures LeftOut(p, team, c) <==> Excluded(p, Chain(p.tree, team), c)
    ensures SomeList(p, team) <==> AnyList(p, Chain(p.tree, team))
  {
    var chain := Chain(p.tree, team);
    forall u ensures AtOrAbove(p.tree, u, team) <==> u in chain { AboveIsOnTheChain(p.tree, u, team); }
    forall u ensures ListAllows(p, u, c) <==> p.ListAdmits(u, c) { if u in p.lists { SelectedIs(p.lists[u].allow, c); } }
    hide Chain, AtOrAbove, ListAllows, WellFormed, Policy.ListAdmits;
    if i :| 0 <= i < |chain| && !p.ListAdmits(chain[i], c) { assert chain[i] in chain; }
    if u :| u in chain && !p.ListAdmits(u, c) {
      var i :| 0 <= i < |chain| && chain[i] == u;
      assert !p.ListAdmits(chain[i], c);
    }
  }

  // ---------------------------------------------------------------- the list

  ghost predicate Admitted(p: Policy, team: string, c: Component) {
    WellFormed(p.tree) && team in p.tree.teams && May(p, team, c)
  }

  lemma {:induction false} EntriesAre(p: Policy, team: string, cs: seq<Component>)
    requires WellFormed(p.tree) && team in p.tree.teams && Targeted(p.byTarget, p.grants)
    ensures var entries, admitted := EntriesFor(p, Chain(p.tree, team), cs), Filter(c => Admitted(p, team, c), cs);
      && |entries| == |admitted|
      && forall i :: 0 <= i < |entries| ==> entries[i].component == admitted[i] && Explains(p, team, entries[i])
  {
    hide May, EntryFor, Explains, Chain, WellFormed, Targeted;
    if cs != [] {
      var n := |cs| - 1;
      assert cs == cs[..n] + [cs[n]];
      FilterAppend(c => Admitted(p, team, c), cs[..n], [cs[n]]);
      EntriesAre(p, team, cs[..n]);
      EntryExplains(p, team, cs[n]);
    }
  }

  lemma {:induction false} FilterKeepsDistinct<T(!new)>(keep: T -> bool, s: seq<T>)
    requires Distinct(s)
    ensures Distinct(Filter(keep, s))
  {
    if s != [] { FilterKeepsDistinct(keep, s[1..]); }
  }

  /** What `EffectivePalette` returns for a loaded policy: exactly the
      components of the Catalogue the team may use, each once, in the
      Catalogue's order, each with the reason it is there. */
  lemma PaletteListsExactly(p: Policy, team: string, entries: seq<PaletteEntry>)
    requires WellFormed(p.tree) && team in p.tree.teams && Targeted(p.byTarget, p.grants)
    requires entries == EntriesFor(p, Chain(p.tree, team), p.cat)
    ensures |entries| == |Filter(c => Admitted(p, team, c), p.cat)|
    ensures forall i :: 0 <= i < |entries| ==>
      entries[i].component == Filter(c => Admitted(p, team, c), p.cat)[i] && Explains(p, team, entries[i])
    ensures Distinct(p.cat) ==> forall i, j :: 0 <= i < j < |entries| ==> entries[i].component != entries[j].component
  {
    EntriesAre(p, team, p.cat);
    if Distinct(p.cat) { FilterKeepsDistinct(c => Admitted(p, team, c), p.cat); }
    hide Filter, Explains, EntriesFor;
  }
}
