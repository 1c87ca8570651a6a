/** Scope resolution: which registry groups a scope reaches, what each of them
    demands, and how those demands flatten to one level per attribute. */
module SchemaScope {
  import opened Base
  import opened Verdicts
  import opened SchemaModel

  // ---------------------------------------------------------------- demands

  function DefinitionOf(reg: Registry, g: Group, a: Attribute): (Attribute, string) {
    if a.Defines() then (a, g.id)
    else
      var def := reg.FindAttribute(a.ref);
      if def.Some? then def.value else (a, "")
  }

  function DemandOf(reg: Registry, g: Group, a: Attribute): (d: Demand)
    ensures d.attribute == a.Key() && d.level == a.DeclaredLevel()
  {
    var def := DefinitionOf(reg, g, a);
    Demand(a.Key(), a.DeclaredLevel(), g.id, def.0.members, def.1)
  }

  /** One attribute, one definition: every entry of a key resolves to the
      same members. */
  ghost predicate OneDefinition(reg: Registry) {
    forall g, a, h, b ::
      g in reg.groups && a in g.attributes && h in reg.groups && b in h.attributes && a.Key() == b.Key() ==>
        DefinitionOf(reg, g, a).0.members == DefinitionOf(reg, h, b).0.members
  }

  /** What the registry's own validation establishes of ids and keys, with the
      one thing it does not check: a reference nothing in the tree defines
      carries no members of its own. */
  ghost predicate ValidIds(reg: Registry) {
    && (forall g, a :: g in reg.groups && a in g.attributes ==> (a.id != "") != (a.ref != ""))
    && (forall i, j :: 0 <= i < j < |reg.groups| ==> reg.groups[i].id != reg.groups[j].id)
    && (forall g, i, j :: g in reg.groups && 0 <= i < j < |g.attributes| ==> g.attributes[i].Key() != g.attributes[j].Key())
    && (forall g, a, h, b ::
          g in reg.groups && a in g.attributes && h in reg.groups && b in h.attributes &&
          a.Defines() && b.Defines() && a.id == b.id ==>
            g.id == h.id && a == b)
  }

  ghost predicate BareReferences(reg: Registry) {
    forall g, a :: g in reg.groups && a in g.attributes && !a.Defines() && reg.FindAttribute(a.ref).None? ==>
      a.members == []
  }

  lemma ValidRegistryHasOneDefinition(reg: Registry)
    requires ValidIds(reg) && BareReferences(reg)
    ensures OneDefinition(reg)
  {
    forall g, a, h, b | g in reg.groups && a in g.attributes && h in reg.groups && b in h.attributes && a.Key() == b.Key()
      ensures DefinitionOf(reg, g, a).0.members == DefinitionOf(reg, h, b).0.members
    {
      DefinitionIsTheOneInTheTree(reg, g, a);
      DefinitionIsTheOneInTheTree(reg, h, b);
    }
  }

  lemma DefinitionIsTheOneInTheTree(reg: Registry, g: Group, a: Attribute)
    requires ValidIds(reg) && BareReferences(reg) && g in reg.groups && a in g.attributes
    ensures DefinitionOf(reg, g, a).0.members
         == var def := reg.FindAttribute(a.Key()); if def.Some? then def.value.0.members else []
  {
  }

  // ---------------------------------------------------- what a scope reaches

  /** One step of resolving a scope: a group reached, alone when it is named
      outright, or for one of its attributes. */
  datatype Visit = Visit(group: Group, attribute: Option<Attribute>)

  predicate Under(key: string, namespace: string) {
    key == namespace || (|namespace| < |key| && key[..|namespace|] == namespace && key[|namespace|] == '.')
  }

  function GroupVisits(g: Group, attributes: seq<Attribute>): (r: seq<Visit>)
    ensures forall v :: v in r <==> v.group == g && v.attribute.Some? && v.attribute.value in attributes
  {
    if attributes == [] then []
    else GroupVisits(g, attributes[..|attributes| - 1]) + [Visit(g, Some(attributes[|attributes| - 1]))]
  }

  function OneNamed(g: Option<Group>): seq<Visit> {
    if g.None? then [] else [Visit(g.value, None)] + GroupVisits(g.value, g.value.attributes)
  }

  function NamedVisits(reg: Registry, ids: seq<string>): seq<Visit> {
    if ids == [] then []
    else
      NamedVisits(reg, ids[..|ids| - 1]) + OneNamed(reg.FindGroup(ids[|ids| - 1]))
  }

  function UnderVisits(g: Group, attributes: seq<Attribute>, namespace: string): seq<Visit> {
    if attributes == [] then []
    else
      var a := attributes[|attributes| - 1];
      UnderVisits(g, attributes[..|attributes| - 1], namespace)
      + (if Under(a.Key(), namespace) then [Visit(g, Some(a))] else [])
  }

  function NamespaceVisits(groups: seq<Group>, namespace: string): seq<Visit> {
    if groups == [] then []
    else
      var g := groups[|groups| - 1];
      NamespaceVisits(groups[..|groups| - 1], namespace) + UnderVisits(g, g.attributes, namespace)
  }

  function NamespacesVisits(groups: seq<Group>, namespaces: seq<string>): seq<Visit> {
    if namespaces == [] then []
    else
      NamespacesVisits(groups, namespaces[..|namespaces| - 1])
      + NamespaceVisits(groups, namespaces[|namespaces| - 1])
  }

  /** The resolution in authored order: named groups, then the namespace walk. */
  function Visits(reg: Registry, scope: Scope): seq<Visit> {
    NamedVisits(reg, scope.groups) + NamespacesVisits(reg.groups, scope.namespaces)
  }

  /** What the scope reaches, with no order in it. */
  ghost predicate Reaches(reg: Registry, scope: Scope, v: Visit) {
    || (reg.FindGroup(v.group.id) == Some(v.group) && v.group.id in scope.groups
        && (v.attribute.None? || v.attribute.value in v.group.attributes))
    || (v.group in reg.groups && v.attribute.Some? && v.attribute.value in v.group.attributes
        && exists ns :: ns in scope.namespaces && Under(v.attribute.value.Key(), ns))
  }

  lemma {:induction false} NamedVisitsMeaning(reg: Registry, ids: seq<string>, v: Visit)
    ensures v in NamedVisits(reg, ids)
       <==> reg.FindGroup(v.group.id) == Some(v.group) && v.group.id in ids
            && (v.attribute.None? || v.attribute.value in v.group.attributes)
  {
    if ids != [] {
      var n := |ids| - 1;
      assert ids == ids[..n] + [ids[n]];
      NamedVisitsMeaning(reg, ids[..n], v);
    }
  }

  lemma {:induction false} UnderVisitsMeaning(g: Group, attributes: seq<Attribute>, ns: string, v: Visit)
    ensures v in UnderVisits(g, attributes, ns)
       <==> v.group == g && v.attribute.Some? && v.attribute.value in attributes && Under(v.attribute.value.Key(), ns)
  {
    if attributes != [] {
      var n := |attributes| - 1;
      assert attributes == attributes[..n] + [attributes[n]];
      UnderVisitsMeaning(g, attributes[..n], ns, v);
    }
  }

  lemma {:induction false} NamespaceVisitsMeaning(groups: seq<Group>, ns: string, v: Visit)
    ensures v in NamespaceVisits(groups, ns)
       <==> v.group in groups && v.attribute.Some? && v.attribute.value in v.group.attributes
            && Under(v.attribute.value.Key(), ns)
  {
    if groups != [] {
      var n := |groups| - 1;
      assert groups == groups[..n] + [groups[n]];
      NamespaceVisitsMeaning(groups[..n], ns, v);
      UnderVisitsMeaning(groups[n], groups[n].attributes, ns, v);
    }
  }

  lemma {:induction false} NamespacesVisitsMeaning(groups: seq<Group>, nss: seq<string>, v: Visit)
    ensures v in NamespacesVisits(groups, nss)
       <==> v.group in groups && v.attribute.Some? && v.attribute.value in v.group.attributes
            && exists ns :: ns in nss && Under(v.attribute.value.Key(), ns)
  {
    if nss != [] {
      var n := |nss| - 1;
      assert nss == nss[..n] + [nss[n]];
      NamespacesVisitsMeaning(groups, nss[..n], v);
      NamespaceVisitsMeaning(groups, nss[n], v);
    }
  }

  lemma VisitsAreWhatTheScopeReaches(reg: Registry, scope: Scope, v: Visit)
    ensures v in Visits(reg, scope) <==> Reaches(reg, scope, v)
  {
    NamedVisitsMeaning(reg, scope.groups, v);
    NamespacesVisitsMeaning(reg.groups, scope.namespaces, v);
  }

  // ----------------------------------------------------------- scoped groups

  function Position(out: seq<Scoped>, id: string): (r: Option<nat>)
    ensures r.Some? ==> r.value < |out| && out[r.value].group.id == id
    ensures r.None? ==> forall s :: s in out ==> s.group.id != id
  {
    if out == [] then None
    else if out[|out| - 1].group.id == id then Some(|out| - 1)
    else Position(out[..|out| - 1], id)
  }

  function Ensure(out: seq<Scoped>, g: Group): (r: seq<Scoped>)
    ensures Position(r, g.id).Some?
  {
    if Position(out, g.id).Some? then out else out + [Scoped(g, [])]
  }

  predicate Carries(demands: seq<Demand>, key: string) {
    exists d :: d in demands && d.attribute == key
  }

  function Take(reg: Registry, out: seq<Scoped>, g: Group, a: Attribute): seq<Scoped> {
    var o := Ensure(out, g);
    var i := Position(o, g.id).value;
    if Carries(o[i].demands, a.Key()) then o
    else o[i := o[i].(demands := o[i].demands + [DemandOf(reg, g, a)])]
  }

  function Step(reg: Registry, out: seq<Scoped>, v: Visit): seq<Scoped> {
    if v.attribute.None? then Ensure(out, v.group) else Take(reg, out, v.group, v.attribute.value)
  }

  function Gather(reg: Registry, visits: seq<Visit>): seq<Scoped> {
    if visits == [] then []
    else Step(reg, Gather(reg, visits[..|visits| - 1]), visits[|visits| - 1])
  }

  function ScopedGroups(reg: Registry, scope: Scope): seq<Scoped> {
    Gather(reg, Visits(reg, scope))
  }

  /** Where one step leaves what was there: groups keep their places and their
      demands, and at most one group joins, one not reached before. */
  lemma StepShape(reg: Registry, out: seq<Scoped>, v: Visit)
    ensures var r := Step(reg, out, v);
      && |out| <= |r| <= |out| + 1
      && (forall j :: 0 <= j < |out| ==> r[j].group == out[j].group && out[j].demands <= r[j].demands)
      && (|r| > |out| ==> r[|out|].group == v.group && Position(out, v.group.id).None?)
  {
  }

  ghost predicate OnePerGroup(out: seq<Scoped>) {
    forall i, j :: 0 <= i < j < |out| ==> out[i].group.id != out[j].group.id
  }

  lemma {:induction false} GatherOnePerGroup(reg: Registry, visits: seq<Visit>)
    ensures OnePerGroup(Gather(reg, visits))
  {
    if visits != [] {
      var n := |visits| - 1;
      GatherOnePerGroup(reg, visits[..n]);
      StepShape(reg, Gather(reg, visits[..n]), visits[n]);
    }
  }

  ghost predicate Visited(visits: seq<Visit>, g: Group) {
    exists v :: v in visits && v.group == g
  }

  ghost predicate ReadOff(reg: Registry, visits: seq<Visit>, id: string, d: Demand) {
    exists v :: v in visits && v.group.id == id && v.attribute.Some? && d == DemandOf(reg, v.group, v.attribute.value)
  }

  lemma {:induction false} GatheredWasVisited(reg: Registry, visits: seq<Visit>, j: nat)
    requires j < |Gather(reg, visits)|
    ensures Visited(visits, Gather(reg, visits)[j].group)
  {
    var n := |visits| - 1;
    var v, before := visits[n], Gather(reg, visits[..n]);
    StepShape(reg, before, v);
    hide Step;
    if j < |before| {
      GatheredWasVisited(reg, visits[..n], j);
      var w :| w in visits[..n] && w.group == before[j].group;
      assert w in visits;
    } else {
      assert v in visits;
    }
  }

  /** A demand one step adds is the step's own. */
  lemma StepAdds(reg: Registry, out: seq<Scoped>, v: Visit, j: nat, d: Demand)
    requires j < |Step(reg, out, v)| && d in Step(reg, out, v)[j].demands
    requires j < |out| ==> d !in out[j].demands
    ensures v.group.id == Step(reg, out, v)[j].group.id && v.attribute.Some? && d == DemandOf(reg, v.group, v.attribute.value)
  {
    hide DemandOf;
  }

  lemma {:induction false} GatheredWasReadOff(reg: Registry, visits: seq<Visit>, j: nat, d: Demand)
    requires j < |Gather(reg, visits)| && d in Gather(reg, visits)[j].demands
    ensures ReadOff(reg, visits, Gather(reg, visits)[j].group.id, d)
  {
    var n := |visits| - 1;
    var v, before := visits[n], Gather(reg, visits[..n]);
    StepShape(reg, before, v);
    hide Step, DemandOf;
    if j < |before| && d in before[j].demands {
      GatheredWasReadOff(reg, visits[..n], j, d);
      var w :| w in visits[..n] && w.group.id == before[j].group.id && w.attribute.Some? && d == DemandOf(reg, w.group, w.attribute.value);
      assert w in visits;
    } else {
      StepAdds(reg, before, v, j, d);
      assert v in visits;
    }
  }

  /** Nothing is invented: each group was visited, and each of its demands is
      read off an entry visited under its id. */
  lemma GatherInventsNothing(reg: Registry, visits: seq<Visit>, j: nat)
    requires j < |Gather(reg, visits)|
    ensures Visited(visits, Gather(reg, visits)[j].group)
    ensures forall d :: d in Gather(reg, visits)[j].demands ==>
      ReadOff(reg, visits, Gather(reg, visits)[j].group.id, d)
  {
    hide Gather, Visited, ReadOff;
    GatheredWasVisited(reg, visits, j);
    forall d | d in Gather(reg, visits)[j].demands { GatheredWasReadOff(reg, visits, j, d); }
  }

  ghost predicate Kept(out: seq<Scoped>, v: Visit) {
    exists s :: s in out && s.group.id == v.group.id && (v.attribute.Some? ==> Carries(s.demands, v.attribute.value.Key()))
  }

  lemma StepKeeps(reg: Registry, before: seq<Scoped>, last: Visit, v: Visit)
    requires Kept(before, v)
    ensures Kept(Step(reg, before, last), v)
  {
    StepShape(reg, before, last);
    hide Step;
    var s :| s in before && s.group.id == v.group.id && (v.attribute.Some? ==> Carries(s.demands, v.attribute.value.Key()));
    var j :| 0 <= j < |before| && before[j] == s;
    var r := Step(reg, before, last);
    assert r[j] in r;
    assert forall d :: d in s.demands ==> d in r[j].demands;
  }

  lemma StepTakes(reg: Registry, before: seq<Scoped>, v: Visit)
    ensures Kept(Step(reg, before, v), v)
  {
    var o, r := Ensure(before, v.group), Step(reg, before, v);
    var i := Position(o, v.group.id).value;
    assert r[i] in r;
    if v.attribute.Some? && !Carries(o[i].demands, v.attribute.value.Key()) {
      assert DemandOf(reg, v.group, v.attribute.value) in r[i].demands;
    }
  }

  /** Nothing visited is lost. */
  lemma {:induction false} GatherKeeps(reg: Registry, visits: seq<Visit>, v: Visit)
    requires v in visits
    ensures Kept(Gather(reg, visits), v)
  {
    var n := |visits| - 1;
    assert visits == visits[..n] + [visits[n]];
    if v in visits[..n] {
      GatherKeeps(reg, visits[..n], v);
      StepKeeps(reg, Gather(reg, visits[..n]), visits[n], v);
    } else {
      StepTakes(reg, Gather(reg, visits[..n]), v);
    }
  }

  lemma SameIdSameGroup(reg: Registry, g: Group, h: Group)
    requires ValidIds(reg) && g in reg.groups && h in reg.groups && g.id == h.id
    ensures g == h
  {
  }

  lemma SameKeySameEntry(reg: Registry, g: Group, a: Attribute, b: Attribute)
    requires ValidIds(reg) && g in reg.groups && a in g.attributes && b in g.attributes && a.Key() == b.Key()
    ensures a == b
  {
  }

  lemma ReachedIsInTheRegistry(reg: Registry, scope: Scope, v: Visit)
    requires v in Visits(reg, scope)
    ensures v.group in reg.groups && (v.attribute.Some? ==> v.attribute.value in v.group.attributes)
  {
    VisitsAreWhatTheScopeReaches(reg, scope, v);
  }

  /** Whatever the registry, every demand a scope makes is read off one of its
      own entries. */
  lemma DemandsComeFromTheRegistry(reg: Registry, scope: Scope, s: Scoped, d: Demand)
    requires s in ScopedGroups(reg, scope) && d in s.demands
    ensures exists g, a :: g in reg.groups && a in g.attributes && d == DemandOf(reg, g, a)
  {
    hide Reaches, ValidIds, Visits, Gather, DemandOf;
    var j :| 0 <= j < |ScopedGroups(reg, scope)| && ScopedGroups(reg, scope)[j] == s;
    GatherInventsNothing(reg, Visits(reg, scope), j);
    var v :| v in Visits(reg, scope) && v.group.id == s.group.id && v.attribute.Some? && d == DemandOf(reg, v.group, v.attribute.value);
    ReachedIsInTheRegistry(reg, scope, v);
  }

  /** Which groups a scope reaches, with no order in it: named outright, or
      carrying an entry under a namespace. Each is reached once. */
  lemma ReachedGroups(reg: Registry, scope: Scope, g: Group)
    requires ValidIds(reg)
    ensures OnePerGroup(ScopedGroups(reg, scope))
    ensures (exists s :: s in ScopedGroups(reg, scope) && s.group == g)
       <==> exists v :: Reaches(reg, scope, v) && v.group == g
  {
    hide Reaches, OnePerGroup, ValidIds, Visits, Gather;
    var out, visits := ScopedGroups(reg, scope), Visits(reg, scope);
    GatherOnePerGroup(reg, visits);
    if s :| s in out && s.group == g {
      var j :| 0 <= j < |out| && out[j] == s;
      GatherInventsNothing(reg, visits, j);
      var v :| v in visits && v.group == g;
      VisitsAreWhatTheScopeReaches(reg, scope, v);
    }
    if v :| Reaches(reg, scope, v) && v.group == g {
      VisitsAreWhatTheScopeReaches(reg, scope, v);
      GatherKeeps(reg, visits, v);
      var s :| s in out && s.group.id == g.id;
      var j :| 0 <= j < |out| && out[j] == s;
      GatherInventsNothing(reg, visits, j);
      var w :| w in visits && w.group == s.group;
      ReachedIsInTheRegistry(reg, scope, v);
      ReachedIsInTheRegistry(reg, scope, w);
      SameIdSameGroup(reg, g, s.group);
    }
  }

  /** What a scope demands of a group it reaches: exactly the entries reached,
      and of a group named outright exactly all of them. */
  lemma ReachedDemands(reg: Registry, scope: Scope, s: Scoped, d: Demand)
    requires ValidIds(reg) && s in ScopedGroups(reg, scope)
    ensures d in s.demands
       <==> exists a :: a in s.group.attributes && Reaches(reg, scope, Visit(s.group, Some(a))) && d == DemandOf(reg, s.group, a)
  {
    ScopedGroupIsInTheRegistry(reg, scope, s);
    if d in s.demands {
      ReachedDemandIsAnEntry(reg, scope, s, d);
    }
    if a :| a in s.group.attributes && Reaches(reg, scope, Visit(s.group, Some(a))) && d == DemandOf(reg, s.group, a) {
      ReachedEntryIsDemanded(reg, scope, s, a);
    }
  }

  lemma ScopedGroupIsInTheRegistry(reg: Registry, scope: Scope, s: Scoped)
    requires s in ScopedGroups(reg, scope)
    ensures s.group in reg.groups
  {
    var j :| 0 <= j < |ScopedGroups(reg, scope)| && ScopedGroups(reg, scope)[j] == s;
    GatherInventsNothing(reg, Visits(reg, scope), j);
    var w :| w in Visits(reg, scope) && w.group == s.group;
    ReachedIsInTheRegistry(reg, scope, w);
  }

  lemma ReachedEntryIsDemanded(reg: Registry, scope: Scope, s: Scoped, a: Attribute)
    requires ValidIds(reg) && s in ScopedGroups(reg, scope) && s.group in reg.groups
    requires a in s.group.attributes && Reaches(reg, scope, Visit(s.group, Some(a)))
    ensures DemandOf(reg, s.group, a) in s.demands
  {
    hide Reaches, Gather, Visits, DemandOf, ValidIds;
    var v := Visit(s.group, Some(a));
    VisitsAreWhatTheScopeReaches(reg, scope, v);
    GatherKeeps(reg, Visits(reg, scope), v);
    GatherOnePerGroup(reg, Visits(reg, scope));
    var t :| t in ScopedGroups(reg, scope) && t.group.id == s.group.id && Carries(t.demands, a.Key());
    assert t == s;
    var e :| e in s.demands && e.attribute == a.Key();
    ReachedDemandIsAnEntry(reg, scope, s, e);
    var b :| b in s.group.attributes && Reaches(reg, scope, Visit(s.group, Some(b))) && e == DemandOf(reg, s.group, b);
    SameKeySameEntry(reg, s.group, a, b);
  }

  lemma ReachedDemandIsAnEntry(reg: Registry, scope: Scope, s: Scoped, d: Demand)
    requires ValidIds(reg) && s in ScopedGroups(reg, scope) && s.group in reg.groups && d in s.demands
    ensures exists a :: a in s.group.attributes && Reaches(reg, scope, Visit(s.group, Some(a))) && d == DemandOf(reg, s.group, a)
  {
    hide Reaches, ValidIds, Gather, DemandOf;
    var j :| 0 <= j < |ScopedGroups(reg, scope)| && ScopedGroups(reg, scope)[j] == s;
    GatherInventsNothing(reg, Visits(reg, scope), j);
    var v :| v in Visits(reg, scope) && v.group.id == s.group.id && v.attribute.Some? && d == DemandOf(reg, v.group, v.attribute.value);
    ReachedIsInTheRegistry(reg, scope, v);
    VisitsAreWhatTheScopeReaches(reg, scope, v);
    SameIdSameGroup(reg, v.group, s.group);
    assert v == Visit(s.group, Some(v.attribute.value));
  }

  /** Authoring the same groups and namespaces in another order reaches the
      same groups and demands the same of each. */
  lemma ScopeOrderDoesNotMatter(reg: Registry, scope: Scope, other: Scope, s: Scoped)
    requires ValidIds(reg)
    requires forall id :: id in scope.groups <==> id in other.groups
    requires forall ns :: ns in scope.namespaces <==> ns in other.namespaces
    requires s in ScopedGroups(reg, scope)
    ensures exists t :: t in ScopedGroups(reg, other) && t.group == s.group && forall d :: d in s.demands <==> d in t.demands
  {
    forall v ensures Reaches(reg, scope, v) <==> Reaches(reg, other, v) { }
    ReachedGroups(reg, scope, s.group);
    ReachedGroups(reg, other, s.group);
    var t :| t in ScopedGroups(reg, other) && t.group == s.group;
    forall d ensures d in s.demands <==> d in t.demands {
      ReachedDemands(reg, scope, s, d);
      ReachedDemands(reg, other, t, d);
    }
  }

  // --------------------------------------------------------- flattened demands

  function Flatten(groups: seq<Scoped>): (r: seq<Demand>)
    ensures forall d :: d in r <==> exists s :: s in groups && d in s.demands
  {
    if groups == [] then []
    else
      assert groups == groups[..|groups| - 1] + [groups[|groups| - 1]];
      Flatten(groups[..|groups| - 1]) + groups[|groups| - 1].demands
  }

  /** The strictest declaration of each attribute, the first one seen of equals. */
  function Strictest(flat: seq<Demand>): map<string, Demand> {
    if flat == [] then map[]
    else
      var d, m := flat[|flat| - 1], Strictest(flat[..|flat| - 1]);
      if d.attribute !in m || Rank(d.level) < Rank(m[d.attribute].level) then m[d.attribute := d] else m
  }

  /** Of equally strict declarations the first one seen stands. */
  lemma {:induction false} FirstOfTheStrictest(flat: seq<Demand>, k: string) returns (i: nat)
    requires k in Strictest(flat)
    ensures i < |flat| && flat[i] == Strictest(flat)[k] && flat[i].attribute == k
    ensures forall j :: 0 <= j < i && flat[j].attribute == k ==> Rank(flat[i].level) < Rank(flat[j].level)
    ensures forall j :: i < j < |flat| && flat[j].attribute == k ==> Rank(flat[i].level) <= Rank(flat[j].level)
  {
    var n := |flat| - 1;
    StrictestMeaning(flat[..n]);
    if k in Strictest(flat[..n]) && Strictest(flat)[k] == Strictest(flat[..n])[k] {
      i := FirstOfTheStrictest(flat[..n], k);
      forall j | i < j < |flat| && flat[j].attribute == k ensures Rank(flat[i].level) <= Rank(flat[j].level) {
        if j < n { assert flat[..n][j] == flat[j]; }
      }
      forall j | 0 <= j < i && flat[j].attribute == k ensures Rank(flat[i].level) < Rank(flat[j].level) { assert flat[..n][j] == flat[j]; }
    } else {
      i := n;
      forall j | 0 <= j < n && flat[j].attribute == k ensures Rank(flat[n].level) < Rank(flat[j].level) {
        assert flat[..n][j] == flat[j] && flat[..n][j] in flat[..n];
      }
    }
  }

  lemma {:induction false} StrictestMeaning(flat: seq<Demand>)
    ensures forall k :: k in Strictest(flat) ==>
      Strictest(flat)[k].attribute == k && Strictest(flat)[k] in flat
    ensures forall d :: d in flat ==>
      d.attribute in Strictest(flat) && Rank(Strictest(flat)[d.attribute].level) <= Rank(d.level)
  {
    if flat != [] {
      var n := |flat| - 1;
      assert flat == flat[..n] + [flat[n]];
      StrictestMeaning(flat[..n]);
    }
  }

  function Attributes(flat: seq<Demand>): (r: seq<string>)
    ensures Distinct(r)
    ensures forall k :: k in r <==> exists d :: d in flat && d.attribute == k
  {
    if flat == [] then []
    else
      var d, rest := flat[|flat| - 1], Attributes(flat[..|flat| - 1]);
      assert flat == flat[..|flat| - 1] + [d];
      if d.attribute in rest then rest else rest + [d.attribute]
  }

  predicate ByAttribute(d: Demand, e: Demand) { Less(d.attribute, e.attribute) }

  function SortedAttributes(flat: seq<Demand>): (keys: seq<string>)
    ensures forall i :: 0 <= i < |keys| ==> keys[i] in Strictest(flat)
  {
    SortMembers(Less, Attributes(flat));
    StrictestMeaning(flat);
    var keys := Sort(Less, Attributes(flat));
    assert forall i :: 0 <= i < |keys| ==> keys[i] in keys;
    keys
  }

  lemma SortedAttributesMeaning(flat: seq<Demand>)
    ensures Increasing(Less, SortedAttributes(flat))
    ensures forall k :: k in SortedAttributes(flat) <==> k in Strictest(flat)
  {
    StringOrder();
    SortDistinct(Less, Attributes(flat));
    SortMembers(Less, Attributes(flat));
    StrictestMeaning(flat);
    forall k | k in Strictest(flat) ensures k in Attributes(flat) {
      assert Strictest(flat)[k] in flat;
    }
  }

  /** One demand per attribute, at its strictest level, in attribute order. */
  function DemandsIn(groups: seq<Scoped>): (out: seq<Demand>)
    ensures |out| == |SortedAttributes(Flatten(groups))|
    ensures forall i :: 0 <= i < |out| ==> out[i] == Strictest(Flatten(groups))[SortedAttributes(Flatten(groups))[i]]
  {
    var flat := Flatten(groups);
    var keys := SortedAttributes(flat);
    seq(|keys|, i requires 0 <= i < |keys| => Strictest(flat)[keys[i]])
  }

  predicate Binding(m: map<string, Demand>, d: Demand) { d.attribute in m && m[d.attribute] == d }

  lemma DemandsInKeys(groups: seq<Scoped>)
    ensures var keys, out := SortedAttributes(Flatten(groups)), DemandsIn(groups);
      |out| == |keys| && forall i :: 0 <= i < |keys| ==> out[i].attribute == keys[i] && Binding(Strictest(Flatten(groups)), out[i])
  {
    StrictestMeaning(Flatten(groups));
    hide Flatten, Strictest, SortedAttributes, DemandsIn;
  }

  lemma DemandsInIncrease(groups: seq<Scoped>)
    ensures Increasing(ByAttribute, DemandsIn(groups))
  {
    DemandsInKeys(groups);
    SortedAttributesMeaning(Flatten(groups));
    hide Flatten, Strictest, SortedAttributes, DemandsIn, Less;
  }

  lemma DemandsInAre(groups: seq<Scoped>, d: Demand)
    ensures d in DemandsIn(groups) <==> Binding(Strictest(Flatten(groups)), d)
  {
    DemandsInKeys(groups);
    SortedAttributesMeaning(Flatten(groups));
    hide Flatten, Strictest, SortedAttributes, DemandsIn, Less, Increasing;
    var keys, out := SortedAttributes(Flatten(groups)), DemandsIn(groups);
    if Binding(Strictest(Flatten(groups)), d) {
      var i :| 0 <= i < |keys| && keys[i] == d.attribute;
      assert out[i] == d;
    }
  }

  /** The list is the strictest map in attribute order, whatever the
      implementation's iteration order was. */
  lemma DemandsInIsTheStrictestMap(groups: seq<Scoped>)
    ensures Increasing(ByAttribute, DemandsIn(groups))
    ensures forall d :: d in DemandsIn(groups) <==> Binding(Strictest(Flatten(groups)), d)
  {
    DemandsInIncrease(groups);
    hide Flatten, Strictest, DemandsIn, Increasing, Binding;
    forall d ensures d in DemandsIn(groups) <==> Binding(Strictest(Flatten(groups)), d) { DemandsInAre(groups, d); }
  }

  /** Some group declares the attribute at the level. */
  ghost predicate Declares(groups: seq<Scoped>, attribute: string, level: Level) {
    exists s, d :: s in groups && d in s.demands && d.attribute == attribute && d.level == level
  }

  /** The flattened list judges the attribute at the level. */
  ghost predicate JudgedAt(groups: seq<Scoped>, attribute: string, level: Level) {
    exists d :: d in DemandsIn(groups) && d.attribute == attribute && d.level == level
  }

  lemma DeclaredIsInTheStrictestMap(groups: seq<Scoped>, attribute: string, level: Level)
    requires Declares(groups, attribute, level)
    ensures attribute in Strictest(Flatten(groups))
    ensures Rank(Strictest(Flatten(groups))[attribute].level) <= Rank(level)
  {
    StrictestMeaning(Flatten(groups));
    var s, d :| s in groups && d in s.demands && d.attribute == attribute && d.level == level;
    assert d in Flatten(groups);
  }

  /** An attribute is judged at the strictest level any group in play declares
      it at, and at no other. */
  lemma StrictestLevelWins(groups: seq<Scoped>, attribute: string, level: Level)
    ensures JudgedAt(groups, attribute, level)
       <==> Declares(groups, attribute, level) && forall l :: Declares(groups, attribute, l) ==> Rank(level) <= Rank(l)
  {
    var m := Strictest(Flatten(groups));
    DemandsInIsTheStrictestMap(groups);
    StrictestMeaning(Flatten(groups));
    if attribute in m {
      var s :| s in groups && m[attribute] in s.demands;
      assert Declares(groups, attribute, m[attribute].level);
      assert m[attribute] in DemandsIn(groups);
    }
    forall l | Declares(groups, attribute, l)
      ensures attribute in m && Rank(m[attribute].level) <= Rank(l)
    {
      DeclaredIsInTheStrictestMap(groups, attribute, l);
    }
  }

  /** So the level is a function of what is declared, whatever the order the
      groups come in. */
  lemma LevelsIgnoreOrder(groups: seq<Scoped>, others: seq<Scoped>, attribute: string, level: Level)
    requires forall l :: Declares(groups, attribute, l) <==> Declares(others, attribute, l)
    ensures JudgedAt(groups, attribute, level) <==> JudgedAt(others, attribute, level)
  {
    StrictestLevelWins(groups, attribute, level);
    StrictestLevelWins(others, attribute, level);
  }

  // ------------------------------------------------------------ the loops

  /** The accumulator `scopedGroups` closes over: the groups reached so far
      and where each one sits. */
  class ScopeBuilder {
    var at: map<string, nat>
    var out: seq<Scoped>
    ghost var visits: seq<Visit>

    ghost predicate Valid(reg: Registry)
      reads this
    {
      && out == Gather(reg, visits)
      && forall id :: (id in at <==> Position(out, id).Some?) && (id in at ==> Some(at[id]) == Position(out, id))
    }

    constructor (reg: Registry)
      ensures Valid(reg) && visits == [] && fresh(this)
    {
      at, out, visits := map[], [], [];
    }

    method Result(reg: Registry) returns (r: seq<Scoped>)
      requires Valid(reg)
      ensures r == Gather(reg, visits)
    {
      r := out;
    }

    method EnsureGroup(reg: Registry, g: Group) returns (i: nat)
      requires Valid(reg)
      modifies this
      ensures Valid(reg) && visits == old(visits) + [Visit(g, None)]
      ensures out == Ensure(old(out), g) && Some(i) == Position(out, g.id)
    {
      EnsureGathers(reg, visits, g);
      EnsurePosition(out, g);
      hide Gather, Position;
      if g.id in at {
        i := at[g.id];
      } else {
        at := at[g.id := |out|];
        out := out + [Scoped(g, [])];
        i := |out| - 1;
      }
      visits := visits + [Visit(g, None)];
    }

    method TakeAttribute(reg: Registry, g: Group, a: Attribute)
      requires Valid(reg)
      modifies this
      ensures Valid(reg) && visits == old(visits) + [Visit(g, Some(a))]
    {
      hide Gather, Carries, DemandOf, Position, Ensure;
      ghost var before := visits;
      var i := EnsureGroup(reg, g);
      var held := IsCarried(out[i].demands, a.Key());
      ghost var o := out;
      TakeGathers(reg, before, g, a, i);
      if !held {
        out := out[i := out[i].(demands := out[i].demands + [DemandOf(reg, g, a)])];
      }
      forall id ensures Position(out, id) == Position(o, id) { PositionReadsIds(out, o, id); }
      visits := before + [Visit(g, Some(a))];
    }
  }

  method IsCarried(demands: seq<Demand>, key: string) returns (held: bool)
    ensures held <==> Carries(demands, key)
  {
    held := false;
    for k := 0 to |demands|
      invariant held <==> Carries(demands[..k], key)
    {
      if demands[k].attribute == key { held := true; }
      assert demands[..k + 1] == demands[..k] + [demands[k]];
    }
    assert demands[..|demands|] == demands;
  }

  /** One attribute visited: its group is there, and carries the attribute's
      demand unless it carried one under that key already. */
  /** A group already there stands where it stood; a new one stands last. */
  lemma EnsurePosition(out: seq<Scoped>, g: Group)
    ensures forall id :: Position(out + [Scoped(g, [])], id) == if id == g.id then Some(|out|) else Position(out, id)
  {
    assert (out + [Scoped(g, [])])[..|out|] == out;
  }

  lemma EnsureGathers(reg: Registry, visits: seq<Visit>, g: Group)
    ensures Gather(reg, visits + [Visit(g, None)]) == Ensure(Gather(reg, visits), g)
  {
    hide Ensure;
    assert (visits + [Visit(g, None)])[..|visits|] == visits;
  }

  lemma TakeGathers(reg: Registry, visits: seq<Visit>, g: Group, a: Attribute, i: nat)
    requires Some(i) == Position(Ensure(Gather(reg, visits), g), g.id)
    ensures var o := Ensure(Gather(reg, visits), g);
      Gather(reg, visits + [Visit(g, Some(a))]) ==
        if Carries(o[i].demands, a.Key()) then o
        else o[i := o[i].(demands := o[i].demands + [DemandOf(reg, g, a)])]
  {
  }

  lemma {:induction false} PositionReadsIds(a: seq<Scoped>, b: seq<Scoped>, id: string)
    requires |a| == |b| && forall i :: 0 <= i < |a| ==> a[i].group.id == b[i].group.id
    ensures Position(a, id) == Position(b, id)
  {
    if a != [] { PositionReadsIds(a[..|a| - 1], b[..|b| - 1], id); }
  }

  method TakeAll(b: ScopeBuilder, reg: Registry, g: Group)
    requires b.Valid(reg)
    modifies b
    ensures b.Valid(reg) && b.visits == old(b.visits) + GroupVisits(g, g.attributes)
  {
    hide ScopeBuilder.Valid;
    for k := 0 to |g.attributes|
      invariant b.Valid(reg) && b.visits == old(b.visits) + GroupVisits(g, g.attributes[..k])
    {
      b.TakeAttribute(reg, g, g.attributes[k]);
      assert g.attributes[..k + 1][..k] == g.attributes[..k];
    }
    assert g.attributes[..|g.attributes|] == g.attributes;
  }

  method TakeUnder(b: ScopeBuilder, reg: Registry, g: Group, ns: string)
    requires b.Valid(reg)
    modifies b
    ensures b.Valid(reg) && b.visits == old(b.visits) + UnderVisits(g, g.attributes, ns)
  {
    hide ScopeBuilder.Valid;
    for k := 0 to |g.attributes|
      invariant b.Valid(reg) && b.visits == old(b.visits) + UnderVisits(g, g.attributes[..k], ns)
    {
      assert g.attributes[..k + 1][..k] == g.attributes[..k];
      if Under(g.attributes[k].Key(), ns) {
        b.TakeAttribute(reg, g, g.attributes[k]);
      }
    }
    assert g.attributes[..|g.attributes|] == g.attributes;
  }

  method WalkNamespace(b: ScopeBuilder, reg: Registry, ns: string)
    requires b.Valid(reg)
    modifies b
    ensures b.Valid(reg) && b.visits == old(b.visits) + NamespaceVisits(reg.groups, ns)
  {
    hide ScopeBuilder.Valid;
    for j := 0 to |reg.groups|
      invariant b.Valid(reg) && b.visits == old(b.visits) + NamespaceVisits(reg.groups[..j], ns)
    {
      assert reg.groups[..j + 1][..j] == reg.groups[..j];
      TakeUnder(b, reg, reg.groups[j], ns);
    }
    assert reg.groups[..|reg.groups|] == reg.groups;
  }

  method VisitGroup(b: ScopeBuilder, reg: Registry, g: Option<Group>)
    requires b.Valid(reg)
    modifies b
    ensures b.Valid(reg) && b.visits == old(b.visits) + OneNamed(g)
  {
    hide ScopeBuilder.Valid, GroupVisits;
    if g.Some? {
      var _ := b.EnsureGroup(reg, g.value);
      TakeAll(b, reg, g.value);
    }
  }

  method VisitNamed(b: ScopeBuilder, reg: Registry, ids: seq<string>)
    requires b.Valid(reg)
    modifies b
    ensures b.Valid(reg) && b.visits == old(b.visits) + NamedVisits(reg, ids)
  {
    hide ScopeBuilder.Valid, GroupVisits, OneNamed;
    for i := 0 to |ids|
      invariant b.Valid(reg) && b.visits == old(b.visits) + NamedVisits(reg, ids[..i])
    {
      assert ids[..i + 1][..i] == ids[..i];
      VisitGroup(b, reg, reg.FindGroup(ids[i]));
    }
    assert ids[..|ids|] == ids;
  }

  method VisitNamespaces(b: ScopeBuilder, reg: Registry, nss: seq<string>)
    requires b.Valid(reg)
    modifies b
    ensures b.Valid(reg) && b.visits == old(b.visits) + NamespacesVisits(reg.groups, nss)
  {
    hide ScopeBuilder.Valid;
    for i := 0 to |nss|
      invariant b.Valid(reg) && b.visits == old(b.visits) + NamespacesVisits(reg.groups, nss[..i])
    {
      assert nss[..i + 1][..i] == nss[..i];
      WalkNamespace(b, reg, nss[i]);
    }
    assert nss[..|nss|] == nss;
  }

  method ResolveScope(reg: Registry, scope: Scope) returns (out: seq<Scoped>)
    ensures out == ScopedGroups(reg, scope)
  {
    hide ScopeBuilder.Valid, Gather, NamedVisits, NamespacesVisits;
    var b := new ScopeBuilder(reg);
    VisitNamed(b, reg, scope.groups);
    VisitNamespaces(b, reg, scope.namespaces);
    assert b.visits == Visits(reg, scope);
    out := b.Result(reg);
  }

  method MergeStrictest(strict: map<string, Demand>, ghost flat: seq<Demand>, ds: seq<Demand>)
    returns (merged: map<string, Demand>)
    requires strict == Strictest(flat)
    ensures merged == Strictest(flat + ds)
  {
    merged := strict;
    assert flat + ds[..0] == flat;
    for k := 0 to |ds|
      invariant merged == Strictest(flat + ds[..k])
    {
      assert (flat + ds[..k + 1])[..|flat| + k] == flat + ds[..k];
      var d := ds[k];
      if d.attribute !in merged || Rank(d.level) < Rank(merged[d.attribute].level) {
        merged := merged[d.attribute := d];
      }
    }
    assert ds[..|ds|] == ds;
  }

  /** The values of the map, in whatever order it is walked. */
  method ListDemands(strict: map<string, Demand>) returns (listed: seq<Demand>)
    requires forall k :: k in strict ==> strict[k].attribute == k
    ensures Distinct(listed)
    ensures forall d :: d in listed <==> Binding(strict, d)
  {
    var todo := strict.Keys;
    listed := [];
    while todo != {}
      invariant todo <= strict.Keys
      invariant Distinct(listed)
      invariant forall d :: d in listed <==> Binding(strict, d) && d.attribute !in todo
      decreases |todo|
    {
      var k :| k in todo;
      assert strict[k] !in listed;
      listed := listed + [strict[k]];
      todo := todo - {k};
    }
  }

  /** Flattens by filling a map and then walking it in no particular order:
      the sort makes the answer one answer. */
  method FlattenDemands(groups: seq<Scoped>) returns (out: seq<Demand>)
    ensures out == DemandsIn(groups)
  {
    var strict: map<string, Demand> := map[];
    for i := 0 to |groups|
      invariant strict == Strictest(Flatten(groups[..i]))
    {
      assert groups[..i + 1][..i] == groups[..i];
      strict := MergeStrictest(strict, Flatten(groups[..i]), groups[i].demands);
    }
    assert groups[..|groups|] == groups;
    StrictestMeaning(Flatten(groups));
    var listed := ListDemands(strict);
    out := Sort(ByAttribute, listed);
    AttributeOrder();
    SortDistinct(ByAttribute, listed);
    SortMembers(ByAttribute, listed);
    DemandsInIsTheStrictestMap(groups);
    IncreasingUnique(ByAttribute, out, DemandsIn(groups));
  }

  lemma AttributeOrder()
    ensures WeakOrder(ByAttribute)
    ensures forall d, e :: !ByAttribute(d, e) && !ByAttribute(e, d) ==> d.attribute == e.attribute
  {
    StringOrder();
  }
}
