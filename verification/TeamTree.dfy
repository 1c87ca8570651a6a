/** The team hierarchy two ways: parent pointers, as the loader builds them,
    and the nested tree the console projects and searches depth-first. */
module TeamTree {
  import opened Base

  /** `parent` is "" at a root. */
  datatype Team = Team(parent: string, children: seq<string>)

  /** `owners` maps an owner to its team. */
  datatype Tree = Tree(teams: map<string, Team>, owners: map<string, string>)

  /** A position for every team, parents before children: what rules out a
      cycle. */
  ghost predicate Ordered(t: Tree, pos: map<string, nat>) {
    && pos.Keys == t.teams.Keys
    && forall id :: id in t.teams ==>
         && pos[id] < |t.teams|
         && (t.teams[id].parent != "" ==> t.teams[id].parent in t.teams && pos[t.teams[id].parent] < pos[id])
  }

  /** A loaded tree: ids are not empty and every parent chain ends at a root. */
  ghost predicate WellFormed(t: Tree) {
    "" !in t.teams && exists pos :: Ordered(t, pos)
  }

  ghost function Pos(t: Tree): (pos: map<string, nat>)
    requires WellFormed(t)
    ensures Ordered(t, pos)
  {
    var pos :| Ordered(t, pos);
    pos
  }

  /** Children and parents name each other, and no child is listed twice. */
  ghost predicate Consistent(t: Tree) {
    && (forall id, c :: id in t.teams && c in t.teams[id].children ==> c in t.teams && t.teams[c].parent == id)
    && (forall id :: id in t.teams && t.teams[id].parent in t.teams ==> id in t.teams[t.teams[id].parent].children)
  }

  ghost predicate SingleRoot(t: Tree, root: string) {
    root in t.teams && forall id :: id in t.teams ==> (t.teams[id].parent == "" <==> id == root)
  }

  /** The teams from the root down to `team`. */
  ghost function Chain(t: Tree, team: string): (chain: seq<string>)
    requires WellFormed(t) && team in t.teams
    ensures |chain| > 0 && chain[|chain| - 1] == team
    ensures forall id :: id in chain ==> id in t.teams
    decreases Pos(t)[team]
  {
    var parent := t.teams[team].parent;
    if parent == "" then [team] else Chain(t, parent) + [team]
  }

  function Reversed(s: seq<string>): (r: seq<string>)
    ensures |r| == |s|
  {
    if s == [] then [] else Reversed(s[1..]) + [s[0]]
  }

  /** Walks the parent pointers up and reverses. */
  method ChainUp(t: Tree, team: string) returns (r: Result<seq<string>, string>)
    requires WellFormed(t)
    ensures r.Ok? <==> team in t.teams
    ensures r.Ok? ==> r.value == Chain(t, team)
  {
    if team !in t.teams { return Err(team); }
    var out: seq<string> := [];
    var id := team;
    while id != ""
      invariant id == "" || id in t.teams
      invariant Chain(t, team) == (if id == "" then [] else Chain(t, id)) + Reversed(out)
      decreases if id == "" then 0 else Pos(t)[id] + 1
    {
      hide Reversed, Pos;
      ReversedAppend(out, id);
      var parent := t.teams[id].parent;
      ghost var above := if parent == "" then [] else Chain(t, parent);
      assert Chain(t, id) == above + [id];
      assert (above + [id]) + Reversed(out) == above + ([id] + Reversed(out));
      out := out + [id];
      id := parent;
    }
    r := Ok(Reversed(out));
  }

  lemma {:induction false} ReversedAppend(s: seq<string>, x: string)
    ensures Reversed(s + [x]) == [x] + Reversed(s)
  {
    if s != [] {
      assert (s + [x])[1..] == s[1..] + [x];
      ReversedAppend(s[1..], x);
    }
  }

  /** `a` sits strictly above `b`. */
  ghost predicate ProperAncestor(t: Tree, a: string, b: string)
    requires WellFormed(t) && b in t.teams
  {
    a != b && a in Chain(t, b)
  }

  lemma {:induction false} ChainBelow(t: Tree, team: string, id: string)
    requires WellFormed(t) && team in t.teams && id in Chain(t, team)
    ensures id in t.teams && Pos(t)[id] <= Pos(t)[team] && Chain(t, id) <= Chain(t, team)
    ensures id != team ==> Pos(t)[id] < Pos(t)[team] && t.teams[team].parent != "" && id in Chain(t, t.teams[team].parent)
    decreases Pos(t)[team]
  {
    var parent := t.teams[team].parent;
    if parent != "" && id in Chain(t, parent) { ChainBelow(t, parent, id); }
  }

  method IsProperAncestor(t: Tree, a: string, b: string) returns (above: bool)
    requires WellFormed(t) && a in t.teams && b in t.teams
    ensures above <==> ProperAncestor(t, a, b)
  {
    var id := t.teams[b].parent;
    if id != "" { ParentIsAbove(t, b); }
    while id != ""
      invariant id == "" || (id in t.teams && id in Chain(t, b) && id != b)
      invariant ProperAncestor(t, a, b) <==> id != "" && a in Chain(t, id)
      decreases if id == "" then 0 else Pos(t)[id] + 1
    {
      if id == a { return true; }
      ChainBelow(t, b, id);
      var parent := t.teams[id].parent;
      if parent != "" { assert parent in Chain(t, id); ChainBelow(t, b, parent); }
      id := parent;
    }
    return false;
  }

  lemma ParentIsAbove(t: Tree, b: string)
    requires WellFormed(t) && b in t.teams && t.teams[b].parent != ""
    ensures t.teams[b].parent in Chain(t, b) && t.teams[b].parent != b
    ensures forall a :: ProperAncestor(t, a, b) <==> a in Chain(t, t.teams[b].parent)
  {
    var parent := t.teams[b].parent;
    forall a | a in Chain(t, parent) ensures a != b { ChainBelow(t, parent, a); }
  }

  // ------------------------------------------------------- the projected tree

  datatype TeamNode = TeamNode(id: string, teams: seq<TeamNode>)

  /** The console's projection: children in id order. */
  ghost function Project(t: Tree, id: string): TeamNode
    requires WellFormed(t) && Consistent(t) && id in t.teams
    decreases |t.teams| - Pos(t)[id], 1, 0
  {
    var cs := Sort(Less, t.teams[id].children);
    SortMembers(Less, t.teams[id].children);
    TeamNode(id, ProjectAll(t, id, cs))
  }

  ghost function ProjectAll(t: Tree, id: string, cs: seq<string>): seq<TeamNode>
    requires WellFormed(t) && Consistent(t) && id in t.teams
    requires forall c :: c in cs ==> c in t.teams[id].children
    decreases |t.teams| - Pos(t)[id], 0, |cs|
  {
    if cs == [] then []
    else
      assert cs[0] in t.teams[id].children;
      [Project(t, cs[0])] + ProjectAll(t, id, cs[1..])
  }

  /** Depth-first search with the trail carried down. */
  function Walk(node: TeamNode, trail: seq<string>, team: string): Option<seq<string>>
    decreases node, 0
  {
    var here := trail + [node.id];
    if node.id == team then Some(here) else WalkAll(node.teams, here, team)
  }

  function WalkAll(nodes: seq<TeamNode>, here: seq<string>, team: string): Option<seq<string>>
    decreases nodes, 1
  {
    if nodes == [] then None
    else
      var found := Walk(nodes[0], here, team);
      if found.Some? then found else WalkAll(nodes[1..], here, team)
  }

  /** An unknown team has no chain. */
  function TeamChain(root: TeamNode, team: string): seq<string> {
    var found := Walk(root, [], team);
    if found.Some? then found.value else []
  }

  /** Searching the projection of `id`, the depth-first search finds exactly
      the teams at or below it, by the chain the parent pointers give. */
  lemma {:induction false} WalkFindsTheChain(t: Tree, id: string, team: string)
    requires WellFormed(t) && Consistent(t) && id in t.teams
    ensures Walk(Project(t, id), Above(t, id), team)
         == if team in t.teams && id in Chain(t, team) then Some(Chain(t, team)) else None
    decreases |t.teams| - Pos(t)[id], 1, 0
  {
    var cs := Sort(Less, t.teams[id].children);
    SortMembers(Less, t.teams[id].children);
    AboveIsTheTrail(t, id);
    if id != team {
      WalkAllFindsTheChain(t, id, cs, team);
      if team in t.teams && id in Chain(t, team) { OnTheWayDown(t, id, team); }
      if team in t.teams {
        forall c | c in cs && c in Chain(t, team) ensures id in Chain(t, team) {
          ChainBelow(t, team, c);
          assert id in Chain(t, c);
        }
      }
    }
  }

  ghost function Above(t: Tree, id: string): seq<string>
    requires WellFormed(t) && id in t.teams
  {
    if t.teams[id].parent == "" then [] else Chain(t, t.teams[id].parent)
  }

  lemma AboveIsTheTrail(t: Tree, id: string)
    requires WellFormed(t) && id in t.teams
    ensures Above(t, id) + [id] == Chain(t, id)
  {
  }

  lemma {:induction false} WalkAllFindsTheChain(t: Tree, id: string, cs: seq<string>, team: string)
    requires WellFormed(t) && Consistent(t) && id in t.teams
    requires forall c :: c in cs ==> c in t.teams[id].children
    ensures WalkAll(ProjectAll(t, id, cs), Chain(t, id), team)
         == if team in t.teams && exists c :: c in cs && c in Chain(t, team) then Some(Chain(t, team)) else None
    decreases |t.teams| - Pos(t)[id], 0, |cs|
  {
    if cs != [] {
      assert cs[0] in t.teams[id].children;
      assert Above(t, cs[0]) == Chain(t, id);
      hide Chain, Above;
      WalkFindsTheChain(t, cs[0], team);
      WalkAllFindsTheChain(t, id, cs[1..], team);
      hide Walk, Project, WellFormed, Consistent, Pos;
      assert ProjectAll(t, id, cs)[0] == Project(t, cs[0]) && ProjectAll(t, id, cs)[1..] == ProjectAll(t, id, cs[1..]);
      assert forall c :: c in cs <==> c == cs[0] || c in cs[1..];
    }
  }

  /** Below `id` on the way to `team` comes one of its children. */
  lemma {:induction false} OnTheWayDown(t: Tree, id: string, team: string)
    requires WellFormed(t) && Consistent(t) && team in t.teams && id in Chain(t, team) && id != team
    ensures id in t.teams && exists c :: c in t.teams[id].children && c in Chain(t, team)
    decreases Pos(t)[team]
  {
    ChainBelow(t, team, id);
    var parent := t.teams[team].parent;
    if parent == id {
      assert team in t.teams[id].children && team in Chain(t, team);
    } else {
      OnTheWayDown(t, id, parent);
    }
  }

  lemma {:induction false} RootTopsEveryChain(t: Tree, root: string, team: string)
    requires WellFormed(t) && SingleRoot(t, root) && team in t.teams
    ensures root in Chain(t, team)
    decreases Pos(t)[team]
  {
    if team != root { RootTopsEveryChain(t, root, t.teams[team].parent); }
  }

  /** In a single-root tree the two chains are the same chain; a team that is
      not in it has none. */
  lemma ChainsAgree(t: Tree, root: string, team: string)
    requires WellFormed(t) && Consistent(t) && SingleRoot(t, root)
    ensures TeamChain(Project(t, root), team) == if team in t.teams then Chain(t, team) else []
  {
    WalkFindsTheChain(t, root, team);
    if team in t.teams { RootTopsEveryChain(t, root, team); }
  }
}
