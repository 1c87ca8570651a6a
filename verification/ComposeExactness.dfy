/** Exactly which components the console's evaluator and the policy judge
    alike whatever the policy: the ones whose names are of one-byte characters
    and cross no slash. */
module ComposeExactness {
  import opened Base
  import opened TextBytes
  import opened Globs
  import opened TeamTree
  import opened CatalogueIndex
  import opened AllowList
  import opened Palette
  import opened Compose

  // ------------------------------------------- a policy that tells them apart

  function LoneTree(): Tree { Tree(map["root" := Team("", [])], map["lead" := "root"]) }

  /** A component beside `c` whose type is the telling entry's own pattern, so
      that the entry selects it and the load accepts the entry. */
  function StandIn(c: Component): Component { c.(typ := TellingEntry(c).pattern, deprecatedType := "") }

  function TellingDoc(c: Component): ListDoc { ListDoc("root", "lead", [TellingEntry(c).Render()]) }

  /** One team, one list, one entry. */
  function TellingPolicy(c: Component): Policy {
    Policy(map["root" := AllowListDecl("root", "lead", [TellingEntry(c)])], map[], map[], LoneTree(), [c, StandIn(c)])
  }

  ghost function TellingBundle(c: Component): Bundle
    requires WellFormed(LoneTree()) && Consistent(LoneTree())
  {
    Bundle(Project(LoneTree(), "root"), [AllowListDoc("root", "lead", Rendered([TellingEntry(c)]))], [], LoneTree().owners)
  }

  lemma LoneTreeStands()
    ensures TreeOk(LoneTree()) && Consistent(LoneTree()) && SingleRoot(LoneTree(), "root")
    ensures Chain(LoneTree(), "root") == ["root"]
    ensures LoneTree().owners.Keys == {"lead"}
  {
    LoneTeamStands(LoneTree(), "root", "lead");
  }

  lemma LoneTeamStands(t: Tree, root: string, owner: string)
    requires t.teams == map[root := Team("", [])] && t.owners == map[owner := root] && root != "" && owner != ""
    ensures TreeOk(t) && Consistent(t) && SingleRoot(t, root) && Chain(t, root) == [root]
  {
    LoneTeamIsOrdered(t, root);
    LoneChain(t, root);
    hide WellFormed, Chain;
    assert t.teams[root] == Team("", []) && t.teams.Keys == {root};
  }

  lemma LoneTeamIsOrdered(t: Tree, root: string)
    requires t.teams == map[root := Team("", [])] && root != ""
    ensures WellFormed(t)
  {
    var pos: map<string, nat> := map[root := 0];
    assert t.teams.Keys == {root} == pos.Keys && |t.teams| == |t.teams.Keys| == 1;
    assert t.teams[root].parent == "";
    assert Ordered(t, pos);
  }

  lemma LoneChain(t: Tree, root: string)
    requires WellFormed(t) && root in t.teams && t.teams[root].parent == ""
    ensures Chain(t, root) == [root]
  {
    hide WellFormed, Pos;
  }

  /** The load accepts it. */
  lemma TellingPolicyLoads(c: Component)
    requires WellDeclared(c) && !AlikeNames(c)
    ensures var p := TellingPolicy(c);
      && ValidCatalogue(p.cat) && TreeOk(p.tree) && Loaded(p)
      && Accepts(Some([TellingDoc(c)]), None, p.tree, p.cat) && ListsHold(p.lists, [TellingDoc(c)])
  {
    LoneTreeStands();
    TellingEntryTells(c);
    EntryRoundTrip(TellingEntry(c).Render(), TellingEntry(c));
    StandInIsSelected(c);
    hide ValidCatalogue, AlikeNames, EntryOk, StandIn, TellingEntry, ParseEntry, EntrySelects, Chain, TreeOk;
    assert StandIn(c) in TellingPolicy(c).cat;
    OneListLoads(TellingPolicy(c), "root", "lead", TellingEntry(c), StandIn(c));
  }

  /** A list of one entry that parses and selects something loads. */
  lemma OneListLoads(p: Policy, team: string, owner: string, e: Entry, c: Component)
    requires TreeOk(p.tree) && team in p.tree.teams && owner in p.tree.owners
    requires EntryOk(e) && ParseEntry(e.Render()) == Some(e) && c in p.cat && e.Selects(c)
    requires p.lists == map[team := AllowListDecl(team, owner, [e])] && p.grants == map[] && p.byTarget == map[]
    ensures var docs := [ListDoc(team, owner, [e.Render()])];
      Loaded(p) && Accepts(Some(docs), None, p.tree, p.cat) && ListsHold(p.lists, docs)
  {
    hide TreeOk, ParseEntry;
    var d := ListDoc(team, owner, [e.Render()]);
    assert InUseBy(p.cat, e.Render());
    assert Parsed(d.allow) == [e];
    assert ListIs(p.lists[team], d) && ListDocOk(d, p.tree, p.cat);
    assert d in [d];
  }

  lemma StandInIsSelected(c: Component)
    requires WellDeclared(c) && !AlikeNames(c)
    ensures ValidCatalogue([c, StandIn(c)]) && TellingEntry(c).Selects(StandIn(c))
  {
    TellingEntryTells(c);
    var e := TellingEntry(c);
    hide TellingEntry, AlikeNames, EntrySelects;
    StarFreeEntry(c);
    PatternTakesItself(e);
    NamedByPattern(e, c);
    hide Entry.Selects, MatchesName;
  }

  lemma StarFreeEntry(c: Component)
    ensures StarFree(Utf8(TellingEntry(c).pattern))
  {
    BytesOfQueries(|Utf8(WideName(c))|);
    BytesOfQueries(|WideName(c)|);
    BytesOfSkeleton(CrossedName(c));
    hide Utf8, Entry.Selects, Skeleton, Queries, WideName, CrossedName, SomeWide;
  }

  /** A component whose type is a star-free pattern is selected by it, by both. */
  lemma PatternTakesItself(e: Entry)
    requires EntryOk(e) && StarFree(Utf8(e.pattern))
    ensures PathMatch(Utf8(e.pattern), Utf8(e.pattern)) && Matches(Utf8(e.pattern), Utf8(e.pattern))
  {
    var pattern := Utf8(e.pattern);
    BytesAndCharacters(e.pattern);
    PatternHoldsNoSlash(e.pattern);
    StarFreeMatches(pattern, pattern);
    OneChunk(pattern, pattern);
    ChunkTakesItself(pattern);
    hide Matches, PathMatch, MatchChunk, Utf8;
  }

  lemma {:induction false} ChunkTakesItself(chunk: Bytes)
    requires SLASH !in chunk
    ensures MatchChunk(chunk, chunk) == Some([])
  {
    if chunk != [] {
      assert chunk[0] in chunk;
      ChunkTakesItself(chunk[1..]);
    }
  }

  /** A component the two read differently under an entry is not called by its
      pattern, so the stand-in may be. */
  lemma NamedByPattern(e: Entry, c: Component)
    requires EntryOk(e) && (EntrySelects(e.Render(), c) <==> !e.Selects(c)) && WellDeclared(c) && e.cls == c.cls
    requires PathMatch(Utf8(e.pattern), Utf8(e.pattern)) && Matches(Utf8(e.pattern), Utf8(e.pattern))
    ensures ValidCatalogue([c, c.(typ := e.pattern, deprecatedType := "")])
    ensures e.Selects(c.(typ := e.pattern, deprecatedType := ""))
  {
    EntryReads(e, c);
    hide Matches, PathMatch, Utf8, EntrySelects;
    assert e.pattern != c.typ && e.pattern != c.deprecatedType;
    assert e.Selects(c.(typ := e.pattern, deprecatedType := ""));
    ApartIsValid(c, e.pattern);
    hide ValidCatalogue;
  }

  lemma ApartIsValid(c: Component, typ: string)
    requires WellDeclared(c) && typ != "" && typ != c.typ && typ != c.deprecatedType
    ensures ValidCatalogue([c, c.(typ := typ, deprecatedType := "")])
  {
    var d := c.(typ := typ, deprecatedType := "");
    assert Graded(d) by {
      assert forall signal :: signal in d.stability ==> SignalGraded(c, signal);
      assert forall signal :: signal in d.deprecation ==> NoticeDue(c, signal);
    }
    hide Pipeline, Graded;
  }

  lemma TellingProjects(c: Component)
    requires WellDeclared(c) && !AlikeNames(c)
    ensures WellFormed(LoneTree()) && Consistent(LoneTree())
    ensures ProjectedAt(TellingBundle(c), TellingPolicy(c), "root", "root")
  {
    LoneTreeStands();
    TellingPolicyLoads(c);
    hide LoneTree, Project, WellFormed, Consistent, TellingEntry, StandIn, Loaded, AlikeNames, TreeOk, Projects, Chain,
      ValidCatalogue, Accepts, ListsHold, Rendered;
    OneListProjects(TellingBundle(c), TellingPolicy(c), "root", "lead", TellingEntry(c));
  }

  lemma OneListProjects(b: Bundle, p: Policy, team: string, owner: string, e: Entry)
    requires WellFormed(p.tree) && Consistent(p.tree) && team in p.tree.teams
    requires p.lists == map[team := AllowListDecl(team, owner, [e])] && p.grants == map[]
    requires b == Bundle(Project(p.tree, team), [AllowListDoc(team, owner, Rendered([e]))], [], p.tree.owners)
    ensures Projects(b, p, team)
  {
    hide Project, WellFormed, Consistent;
    assert b.allowLists[0] in b.allowLists;
  }

  /** Under it one of the two lets the component in and the other does not. */
  lemma TellingPolicyParts(c: Component)
    requires WellDeclared(c) && !AlikeNames(c)
    ensures WellFormed(LoneTree()) && Consistent(LoneTree())
    ensures MembershipOf(TellingBundle(c), "root", c).allowed <==> EntryFor(TellingPolicy(c), ["root"], c).None?
  {
    LoneTreeStands();
    ChainsAgree(LoneTree(), "root", "root");
    OnlyOneSelects(TellingEntry(c), c);
    hide LoneTree, Project, AlikeNames, TellingEntry, WellFormed, Consistent, TreeOk, TeamChain, Chain, SelectsAny, SelectsAnyDoc,
      EntryFor, MembershipOf, StandIn, WellDeclared;
    PolicyAnswers(TellingPolicy(c), c);
    ConsoleAnswers(TellingBundle(c), c);
  }

  lemma OnlyOneSelects(e: Entry, c: Component)
    requires WellDeclared(c) && !AlikeNames(c) && e == TellingEntry(c)
    ensures SelectsAnyDoc(Rendered([e]), c) <==> !SelectsAny([e], c)
  {
    TellingEntryTells(c);
    hide EntrySelects, AlikeNames, TellingEntry, WellDeclared, Entry.Selects;
    assert Rendered([e]) == [e.Render()];
    assert e.Render() in Rendered([e]) && e in [e];
  }

  /** With one list at the root and no Grant, the list decides. */
  lemma PolicyAnswers(p: Policy, c: Component)
    requires "root" in p.lists && p.byTarget == map[]
    ensures EntryFor(p, ["root"], c).Some? <==> SelectsAny(p.lists["root"].allow, c)
  {
    assert ["root"][..0] == [];
    hide SelectsAny;
    assert StandingAt(p, ["root"][..0], c) == Standing(true, None);
  }

  lemma ConsoleAnswers(b: Bundle, c: Component)
    requires TeamChain(b.teams, "root") == ["root"] && b.grants == []
    requires |b.allowLists| == 1 && b.allowLists[0].team == "root"
    ensures MembershipOf(b, "root", c).allowed <==> SelectsAnyDoc(b.allowLists[0].allow, c)
  {
    var chain, lists, grants := ["root"], ListsByTeam(b.allowLists), Sort(DocById, b.grants);
    assert grants == [];
    hide SelectsAnyDoc, TeamChain, Sort;
    assert chain[..0] == [] && b.allowLists[..|b.allowLists| - 1] == [];
    assert ListsByTeam(b.allowLists[..|b.allowLists| - 1]) == map[];
    assert lists == map["root" := b.allowLists[0].allow];
    assert DocStandingAt(lists, grants, chain, c) == DocStep(lists, grants, "root", c, DocStanding(true, None));
  }

  // ---------------------------------------------------------------- exactness

  /** Over every policy that loads, every projection of it and every team. */
  ghost predicate JudgedAlike(c: Component) {
    forall b, p, root, team :: ProjectedAt(b, p, root, team) && ValidCatalogue(p.cat) && c in p.cat ==> SameAnswer(b, p, team, c)
  }

  /** The console and the policy give a component one answer, whatever the
      policy, exactly when every character of its names is one byte and no name
      of it crosses a slash. */
  lemma EvaluatorsAgreeExactly(c: Component)
    requires WellDeclared(c)
    ensures JudgedAlike(c) <==> AlikeNames(c)
  {
    hide AlikeNames, Projects, Consistent, SingleRoot;
    if AlikeNames(c) {
      forall b, p, root, team | ProjectedAt(b, p, root, team) ensures SameAnswer(b, p, team, c) {
        EvaluatorsAgree(b, p, root, team, c);
      }
    } else {
      LoneTreeStands();
      TellingPolicyLoads(c);
      TellingProjects(c);
      TellingPolicyParts(c);
      var b, p := TellingBundle(c), TellingPolicy(c);
      hide ValidCatalogue, TellingBundle, Loaded, EntryFor, MembershipOf;
      assert c in p.cat && !SameAnswer(b, p, "root", c);
    }
  }

  // ------------------------------------------------------------------ witnesses

  /** One character of two bytes: `?` takes it at the policy alone and `??` at
      the console alone. */
  lemma TwoBytesPartThem(c: Component)
    requires WellDeclared(c) && c.typ == "\U{00E9}" && c.deprecatedType == ""
    ensures Entry(c.cls, "?").Selects(c) && !EntrySelects(Entry(c.cls, "?").Render(), c)
    ensures !Entry(c.cls, "??").Selects(c) && EntrySelects(Entry(c.cls, "??").Render(), c)
    ensures !JudgedAlike(c)
  {
    assert Bare(c.typ) && |c.typ| == 1 && c.typ[0] in c.typ && !Ascii(c.typ);
    assert c.typ[1..] == "" && |Utf8(c.typ)| == |Encode(c.typ[0])| == 2;
    assert Queries(1) == "?" && Queries(2) == "??";
    QueriesSelect(Entry(c.cls, "?"), 1, c);
    QueriesSelect(Entry(c.cls, "??"), 2, c);
    EvaluatorsAgreeExactly(c);
    hide EntrySelects, Entry.Selects, JudgedAlike, WellDeclared;
  }

  /** A slash alone does not: every pattern that takes `a/b` across its slash
      takes the alias `axb` too. */
  lemma ASlashMayBeShadowed(c: Component)
    requires WellDeclared(c) && c.typ == "a/b" && c.deprecatedType == "axb"
    ensures !Bare(c.typ) && JudgedAlike(c)
  {
    ShadowOfASlash(c.typ, c.deprecatedType);
    hide Utf8, Ascii, Bare, Shadows;
    assert c.deprecatedType != "";
    assert AlikeNames(c);
    hide AlikeNames, JudgedAlike;
    EvaluatorsAgreeExactly(c);
  }

  lemma ShadowOfASlash(name: string, other: string)
    requires name == "a/b" && other == "axb"
    ensures Ascii(name) && Ascii(other) && !Bare(name) && Bare(other) && Shadows(Utf8(other), Utf8(name))
  {
    assert name[1] == '/';
    BytesOfThree(name);
    BytesOfThree(other);
    hide Utf8;
    assert !Plain(Utf8(name)[1]);
  }

  lemma BytesOfThree(s: string)
    requires |s| == 3 && s[0] as int < 0x80 && s[1] as int < 0x80 && s[2] as int < 0x80
    ensures Utf8(s) == [s[0] as int as byte, s[1] as int as byte, s[2] as int as byte]
  {
    assert s[1..][1..][1..] == "";
    assert Utf8(s[1..][1..]) == [s[2] as int as byte];
    assert Utf8(s[1..]) == [s[1] as int as byte] + Utf8(s[1..][1..]);
  }
}
