/** The console's own allow-list evaluator, over the documents the estate is
    projected to, and its agreement with the policy. */
module Compose {
  import opened Base
  import opened TextBytes
  import opened Globs
  import opened TeamTree
  import opened CatalogueIndex
  import opened AllowList
  import opened Palette

  datatype AllowListDoc = AllowListDoc(team: string, owner: string, allow: seq<string>)

  /** The parts of the document bundle the decision reads. */
  datatype Bundle = Bundle(
    teams: TeamNode, allowLists: seq<AllowListDoc>, grants: seq<GrantDoc>, owners: map<string, string>)

  datatype Membership = Membership(allowed: bool, origin: Origin, grant: string, grantedBy: string, grantedTo: string)

  const NOT_ALLOWED: Membership := Membership(false, OriginDefault, "", "", "")

  // ------------------------------------------------------------------ entries

  /** The pattern takes the type or the alias, byte by byte. */
  ghost predicate MatchesName(pattern: string, c: Component) {
    || Matches(Utf8(pattern), Utf8(c.typ))
    || (c.deprecatedType != "" && Matches(Utf8(pattern), Utf8(c.deprecatedType)))
  }

  /** What one authored entry selects, as the console reads it. */
  ghost predicate EntrySelects(pattern: string, c: Component) {
    var cut := CutAtSlash(pattern);
    && cut.Some? && cut.value.0 != "" && cut.value.0 == c.cls
    && MatchesName(cut.value.1, c)
  }

  method EntrySelectsBy(pattern: string, c: Component) returns (ok: bool)
    ensures ok <==> EntrySelects(pattern, c)
  {
    var cut := CutAtSlash(pattern);
    if cut.None? || cut.value.0 == "" || cut.value.0 != c.cls { return false; }
    ok := GlobMatch(Utf8(cut.value.1), Utf8(c.typ));
    if ok || c.deprecatedType == "" { return; }
    ok := GlobMatch(Utf8(cut.value.1), Utf8(c.deprecatedType));
  }

  ghost predicate SelectsAnyDoc(patterns: seq<string>, c: Component) {
    exists p :: p in patterns && EntrySelects(p, c)
  }

  method SelectsAnyBy(patterns: seq<string>, c: Component) returns (ok: bool)
    ensures ok <==> SelectsAnyDoc(patterns, c)
  {
    for i := 0 to |patterns|
      invariant forall k :: 0 <= k < i ==> !EntrySelects(patterns[k], c)
    {
      var one := EntrySelectsBy(patterns[i], c);
      if one { return true; }
    }
    return false;
  }

  // ---------------------------------------------------------------- the walk

  predicate DocById(g: GrantDoc, h: GrantDoc) { Less(g.id, h.id) }

  datatype DocStanding = DocStanding(allowed: bool, via: Option<GrantDoc>)

  /** The first grant, in id order, that targets the team and selects. */
  ghost function FirstDoc(grants: seq<GrantDoc>, team: string, c: Component): (r: Option<GrantDoc>)
    ensures r.Some? ==> r.value in grants && r.value.team == team && SelectsAnyDoc(r.value.adds, c)
    ensures r.None? ==> forall g :: g in grants && g.team == team ==> !SelectsAnyDoc(g.adds, c)
  {
    if grants == [] then None
    else if grants[0].team == team && SelectsAnyDoc(grants[0].adds, c) then Some(grants[0])
    else FirstDoc(grants[1..], team, c)
  }

  ghost predicate DocAdmits(lists: map<string, seq<string>>, team: string, c: Component) {
    team in lists ==> SelectsAnyDoc(lists[team], c)
  }

  ghost function DocStep(lists: map<string, seq<string>>, grants: seq<GrantDoc>, team: string, c: Component, s: DocStanding): DocStanding {
    var listed := if DocAdmits(lists, team, c) then s else DocStanding(false, None);
    if listed.allowed then listed
    else
      var g := FirstDoc(grants, team, c);
      if g.None? then listed else DocStanding(true, g)
  }

  ghost function DocStandingAt(lists: map<string, seq<string>>, grants: seq<GrantDoc>, chain: seq<string>, c: Component): DocStanding {
    if chain == [] then DocStanding(true, None)
    else DocStep(lists, grants, chain[|chain| - 1], c, DocStandingAt(lists, grants, chain[..|chain| - 1], c))
  }

  /** The lists by team, a later document replacing an earlier one. */
  function ListsByTeam(docs: seq<AllowListDoc>): map<string, seq<string>> {
    if docs == [] then map[]
    else ListsByTeam(docs[..|docs| - 1])[docs[|docs| - 1].team := docs[|docs| - 1].allow]
  }

  ghost function MembershipOf(b: Bundle, team: string, c: Component): Membership {
    var chain, lists := TeamChain(b.teams, team), ListsByTeam(b.allowLists);
    var s := DocStandingAt(lists, Sort(DocById, b.grants), chain, c);
    if !s.allowed then NOT_ALLOWED
    else if s.via.Some? then
      var g := s.via.value;
      var author := if g.owner in b.owners && b.owners[g.owner] != "" then b.owners[g.owner] else g.owner;
      Membership(true, OriginGrant, g.id, author, g.team)
    else
      Membership(true, if exists t :: t in chain && t in lists then OriginAllowList else OriginDefault, "", "", "")
  }

  method WalkDocs(lists: map<string, seq<string>>, grants: seq<GrantDoc>, chain: seq<string>, c: Component) returns (s: DocStanding)
    ensures s == DocStandingAt(lists, grants, chain, c)
  {
    s := DocStanding(true, None);
    for i := 0 to |chain|
      invariant s == DocStandingAt(lists, grants, chain[..i], c)
    {
      assert chain[..i + 1][..i] == chain[..i];
      s := StepDocs(lists, grants, chain[i], c, s);
    }
    assert chain[..|chain|] == chain;
  }

  method StepDocs(lists: map<string, seq<string>>, grants: seq<GrantDoc>, team: string, c: Component, before: DocStanding)
    returns (s: DocStanding)
    ensures s == DocStep(lists, grants, team, c, before)
  {
    s := before;
    if team in lists {
      var selected := SelectsAnyBy(lists[team], c);
      if !selected { s := DocStanding(false, None); }
    }
    if s.allowed { return; }
    for k := 0 to |grants|
      invariant FirstDoc(grants, team, c) == FirstDoc(grants[k..], team, c)
    {
      if grants[k].team == team {
        var selected := SelectsAnyBy(grants[k].adds, c);
        if selected { return DocStanding(true, Some(grants[k])); }
      }
    }
  }

  /** `entry` is None for a (class, type) the Catalogue does not know. */
  method JudgeMembership(b: Bundle, team: string, entry: Option<Component>) returns (m: Membership)
    ensures m == if entry.None? then Membership(false, OriginDefault, "", "", "") else MembershipOf(b, team, entry.value)
  {
    if entry.None? { return NOT_ALLOWED; }
    var c, chain := entry.value, TeamChain(b.teams, team);
    var lists: map<string, seq<string>> := map[];
    for i := 0 to |b.allowLists|
      invariant lists == ListsByTeam(b.allowLists[..i])
    {
      assert b.allowLists[..i + 1][..i] == b.allowLists[..i];
      lists := lists[b.allowLists[i].team := b.allowLists[i].allow];
    }
    assert b.allowLists[..|b.allowLists|] == b.allowLists;
    var declared := false;
    for i := 0 to |chain|
      invariant declared <==> exists k :: 0 <= k < i && chain[k] in lists
    {
      if chain[i] in lists { declared := true; }
    }
    var grants := Sort(DocById, b.grants);
    var s := WalkDocs(lists, grants, chain, c);
    if !s.allowed { return NOT_ALLOWED; }
    m := Membership(true, if declared then OriginAllowList else OriginDefault, "", "", "");
    if s.via.Some? {
      var g := s.via.value;
      var author := if g.owner in b.owners then b.owners[g.owner] else "";
      m := Membership(true, OriginGrant, g.id, if author == "" then g.owner else author, g.team);
    }
  }

  /** Of two documents for one team the later one is its list. */
  lemma {:induction false} LastListWins(docs: seq<AllowListDoc>, team: string) returns (i: int)
    ensures -1 <= i < |docs| && forall j :: i < j < |docs| ==> docs[j].team != team
    ensures i == -1 ==> team !in ListsByTeam(docs)
    ensures i >= 0 ==> docs[i].team == team && team in ListsByTeam(docs) && ListsByTeam(docs)[team] == docs[i].allow
  {
    i := -1;
    if docs != [] {
      var n := |docs| - 1;
      if docs[n].team == team {
        i := n;
      } else {
        i := LastListWins(docs[..n], team);
        forall j | i < j < |docs| ensures docs[j].team != team { if j < n { assert docs[..n][j] == docs[j]; } }
      }
    }
  }

  /** What the console credits, whatever bundle it is handed: a grant document
      of a team on the chain that selects the component, by its author's team
      or, where the owners name none, by the author. A component it does not
      allow is credited to nothing. */
  lemma MembershipCredits(b: Bundle, team: string, c: Component)
    ensures var m := MembershipOf(b, team, c);
      && (!m.allowed ==> m == Membership(false, OriginDefault, "", "", ""))
      && (m.origin != OriginGrant ==> m.grant == "" && m.grantedBy == "" && m.grantedTo == "")
      && (m.allowed && m.origin == OriginGrant ==>
            exists g :: g in b.grants && g.team in TeamChain(b.teams, team) && SelectsAnyDoc(g.adds, c)
              && m.grant == g.id && m.grantedTo == g.team
              && m.grantedBy == if g.owner in b.owners && b.owners[g.owner] != "" then b.owners[g.owner] else g.owner)
  {
    var chain, lists, grants := TeamChain(b.teams, team), ListsByTeam(b.allowLists), Sort(DocById, b.grants);
    SortMembers(DocById, b.grants);
    if DocStandingAt(lists, grants, chain, c).via.Some? { ViaIsOnTheChain(lists, grants, chain, c); }
    hide DocStandingAt, SelectsAnyDoc, Sort, TeamChain, ListsByTeam;
  }

  lemma {:induction false} ViaIsOnTheChain(lists: map<string, seq<string>>, grants: seq<GrantDoc>, chain: seq<string>, c: Component)
    requires DocStandingAt(lists, grants, chain, c).via.Some?
    ensures var g := DocStandingAt(lists, grants, chain, c).via.value; g in grants && g.team in chain && SelectsAnyDoc(g.adds, c)
  {
    hide SelectsAnyDoc, DocAdmits;
    if chain != [] {
      var n := |chain| - 1;
      assert chain == chain[..n] + [chain[n]];
      if DocStandingAt(lists, grants, chain[..n], c).via.Some? { ViaIsOnTheChain(lists, grants, chain[..n], c); }
    }
  }

  // ----------------------------------------------------------- the projection

  function Rendered(entries: seq<Entry>): (r: seq<string>)
    ensures |r| == |entries| && forall i :: 0 <= i < |entries| ==> r[i] == entries[i].Render()
  {
    seq(|entries|, i requires 0 <= i < |entries| => entries[i].Render())
  }

  /** The documents a policy is projected to: a list document per list and a
      grant document per Grant, entries rendered, owners with their teams, and
      the nested tree under its one root. */
  ghost predicate Projects(b: Bundle, p: Policy, root: string)
    requires WellFormed(p.tree) && Consistent(p.tree) && root in p.tree.teams
  {
    && b.teams == Project(p.tree, root) && b.owners == p.tree.owners
    && (forall d :: d in b.allowLists <==>
          d.team in p.lists && d == AllowListDoc(d.team, p.lists[d.team].owner, Rendered(p.lists[d.team].allow)))
    && Distinct(b.grants)
    && (forall d :: d in b.grants <==> d.id in p.grants && d == DocOf(p.grants[d.id]))
  }

  function DocOf(g: Grant): GrantDoc { GrantDoc(g.id, g.owner, g.team, Rendered(g.adds)) }

  // --------------------------------------------- the names both read alike

  /** A byte a pattern can spell. */
  predicate Plain(b: byte) { b !in [0x5B, 0x5D, 0x5C, SLASH, STAR, QUERY] }

  /** `other` has `name`'s length and every byte of it a pattern can spell. */
  predicate Shadows(other: Bytes, name: Bytes) {
    |other| == |name| && forall i :: 0 <= i < |name| && Plain(name[i]) ==> other[i] == name[i]
  }

  /** A name that holds a slash is shadowed by the component's other one, and
      that one holds none. */
  predicate Uncrossed(c: Component) {
    && (Bare(c.typ) || (c.deprecatedType != "" && Bare(c.deprecatedType) && Shadows(Utf8(c.deprecatedType), Utf8(c.typ))))
    && (Bare(c.deprecatedType) || (Bare(c.typ) && Shadows(Utf8(c.typ), Utf8(c.deprecatedType))))
  }

  /** The components the two read alike: every character of both names is one
      byte, and nothing crosses a slash. */
  predicate AlikeNames(c: Component) {
    Ascii(c.typ) && Ascii(c.deprecatedType) && Uncrossed(c)
  }

  /** What a pattern says of a name it says of every name that shadows it. */
  lemma {:induction false} ShadowMatches(pattern: Bytes, name: Bytes, other: Bytes)
    requires (forall b :: b in pattern ==> Plain(b) || b == STAR || b == QUERY) && Shadows(other, name) && Matches(pattern, name)
    ensures Matches(pattern, other)
  {
    hide Matches;
    if pattern == [] {
      EmptyPattern(name);
      EmptyPattern(other);
    } else {
      assert pattern[0] in pattern && forall b :: b in pattern[1..] ==> b in pattern;
      if pattern[0] == STAR {
        FirstStar(pattern, name);
        FirstStar(pattern, other);
        var k :| 0 <= k <= |name| && Matches(pattern[1..], name[k..]);
        ShadowsFrom(other, name, k);
        ShadowMatches(pattern[1..], name[k..], other[k..]);
      } else {
        FirstLiteral(pattern, name);
        FirstLiteral(pattern, other);
        ShadowsFrom(other, name, 1);
        ShadowMatches(pattern[1..], name[1..], other[1..]);
      }
    }
  }

  lemma ShadowsFrom(other: Bytes, name: Bytes, k: nat)
    requires Shadows(other, name) && k <= |name|
    ensures Shadows(other[k..], name[k..])
  {
    assert forall i :: 0 <= i < |name[k..]| ==> name[k..][i] == name[k + i] && other[k..][i] == other[k + i];
  }

  lemma {:induction false} LoadedBytes(pattern: string)
    requires forall ch :: ch in pattern ==> !Refused(ch)
    ensures forall b :: b in Utf8(pattern) ==> Plain(b) || b == STAR || b == QUERY
  {
    if pattern != "" {
      assert pattern == [pattern[0]] + pattern[1..];
      LoadedBytes(pattern[1..]);
      forall b | b in Encode(pattern[0]) ensures Plain(b) || b == STAR || b == QUERY {
        assert pattern[0] in pattern;
      }
    }
  }

  predicate Spelt(ch: char) { !Refused(ch) && ch != '*' && ch != '?' }

  /** The name as a pattern, `?` where no pattern can spell it. */
  function Skeleton(name: string): (pattern: string)
    ensures |pattern| == |name|
    ensures forall ch :: ch in pattern ==> Spelt(ch) || ch == '?'
  {
    seq(|name|, i requires 0 <= i < |name| => if Spelt(name[i]) then name[i] else '?')
  }

  lemma {:induction false} BytesOfSkeleton(name: string)
    ensures var p, n := Utf8(Skeleton(name)), Utf8(name);
      |p| == |n| && StarFree(p) && forall i :: 0 <= i < |n| ==> p[i] == if Plain(n[i]) then n[i] else QUERY
  {
    if name != "" {
      assert Skeleton(name)[1..] == Skeleton(name[1..]);
      BytesOfSkeleton(name[1..]);
      BytesOfSpelt(name[0]);
      hide Encode, Spelt, Plain;
    }
  }

  lemma BytesOfSpelt(ch: char)
    ensures var p, n := Encode(if Spelt(ch) then ch else '?'), Encode(ch);
      |p| == |n| && StarFree(p) && forall i :: 0 <= i < |n| ==> p[i] == if Plain(n[i]) then n[i] else QUERY
  {
    var n := Encode(ch);
    assert forall i :: 0 <= i < |n| ==> n[i] in n;
  }

  /** It matches exactly what shadows the name. */
  lemma SkeletonMatches(name: string, s: Bytes)
    ensures Matches(Utf8(Skeleton(name)), s) <==> Shadows(s, Utf8(name))
  {
    BytesOfSkeleton(name);
    StarFreeMatches(Utf8(Skeleton(name)), s);
    hide Matches, Utf8, Plain;
  }

  lemma EntryReads(e: Entry, c: Component)
    requires EntryOk(e)
    ensures EntrySelects(e.Render(), c) <==> c.cls == e.cls && MatchesName(e.pattern, c)
  {
    CutIsAtTheFirst(e.cls, e.pattern);
  }

  lemma EntriesAgree(e: Entry, c: Component)
    requires EntryOk(e) && AlikeNames(c)
    ensures EntrySelects(e.Render(), c) <==> e.Selects(c)
  {
    EntryReads(e, c);
    LoadedBytes(e.pattern);
    NameAlike(e.pattern, c.typ, c.deprecatedType);
    NameAlike(e.pattern, c.deprecatedType, c.typ);
    hide Matches, PathMatch, Utf8, EntrySelects;
  }

  /** Where the console takes a name, the policy takes it or the one that
      shadows it; and it takes no name the console does not. */
  lemma NameAlike(pattern: string, name: string, other: string)
    requires PatternOk(pattern) && Ascii(name) && Ascii(other)
    ensures PathMatch(Utf8(pattern), Utf8(name)) ==> Matches(Utf8(pattern), Utf8(name))
    ensures Bare(name) ==> (PathMatch(Utf8(pattern), Utf8(name)) <==> Matches(Utf8(pattern), Utf8(name)))
    ensures Bare(other) && Shadows(Utf8(other), Utf8(name)) && Matches(Utf8(pattern), Utf8(name)) ==> PathMatch(Utf8(pattern), Utf8(other))
  {
    if Bare(name) {
      MatchersAgree(pattern, name);
    } else if PathMatch(Utf8(pattern), Utf8(name)) {
      SlashInBytes(name);
      PatternHoldsNoSlash(pattern);
      PathMatchTakesNoSlash(Utf8(pattern), Utf8(name));
    }
    if Bare(other) && Shadows(Utf8(other), Utf8(name)) && Matches(Utf8(pattern), Utf8(name)) {
      LoadedBytes(pattern);
      ShadowMatches(Utf8(pattern), Utf8(name), Utf8(other));
      MatchersAgree(pattern, other);
    }
  }

  // ---- an entry that tells them apart ------------------------------------

  predicate WideAndBare(name: string) { Bare(name) && !Ascii(name) }

  predicate SomeWide(c: Component) { WideAndBare(c.typ) || WideAndBare(c.deprecatedType) }

  function WideName(c: Component): string { if WideAndBare(c.typ) then c.typ else c.deprecatedType }

  /** A name that crosses a slash unshadowed. */
  function CrossedName(c: Component): string {
    if !Bare(c.typ) && !(c.deprecatedType != "" && Bare(c.deprecatedType) && Shadows(Utf8(c.deprecatedType), Utf8(c.typ))) then c.typ
    else c.deprecatedType
  }

  /** For a name of wide characters, as many `?` as it has bytes or, where the
      policy takes the component by its other name, as it has characters; for a
      crossed one, its skeleton. */
  function TellingEntry(c: Component): Entry {
    if SomeWide(c) then
      var long := Entry(c.cls, Queries(|Utf8(WideName(c))|));
      if long.Selects(c) then Entry(c.cls, Queries(|WideName(c)|)) else long
    else Entry(c.cls, Skeleton(CrossedName(c)))
  }

  lemma WideNameParts(c: Component)
    requires Pipeline(c.cls) && SomeWide(c)
    ensures EntryOk(TellingEntry(c)) && (EntrySelects(TellingEntry(c).Render(), c) <==> !TellingEntry(c).Selects(c))
  {
    var name := WideName(c);
    var bytes, characters := |Utf8(name)|, |name|;
    BytesAndCharacters(name);
    BytesAndCharacters(c.typ);
    BytesAndCharacters(c.deprecatedType);
    var long, short := Entry(c.cls, Queries(bytes)), Entry(c.cls, Queries(characters));
    QueriesSelect(long, bytes, c);
    QueriesSelect(short, characters, c);
    hide EntrySelects, Utf8;
  }

  /** What a run of `?` selects: to the console a number of bytes, to the policy
      one of characters. */
  lemma QueriesSelect(e: Entry, k: nat, c: Component)
    requires Pipeline(e.cls) && e.cls == c.cls && k > 0 && e.pattern == Queries(k)
    ensures EntryOk(e)
    ensures EntrySelects(e.Render(), c) <==> |Utf8(c.typ)| == k || |Utf8(c.deprecatedType)| == k
    ensures e.Selects(c) <==> (Bare(c.typ) && |c.typ| == k) || (Bare(c.deprecatedType) && |c.deprecatedType| == k)
  {
    EntryReads(e, c);
    QueriesCountBytes(k, Utf8(c.typ));
    QueriesCountBytes(k, Utf8(c.deprecatedType));
    QueriesCountCharacters(k, c.typ);
    QueriesCountCharacters(k, c.deprecatedType);
    hide Matches, PathMatch, EntrySelects;
  }

  lemma CrossedNameParts(c: Component)
    requires Pipeline(c.cls) && !SomeWide(c) && !AlikeNames(c)
    ensures EntryOk(TellingEntry(c)) && EntrySelects(TellingEntry(c).Render(), c) && !TellingEntry(c).Selects(c)
  {
    var name, e := CrossedName(c), TellingEntry(c);
    CrossedIsNotShadowed(c);
    EntryReads(e, c);
    SkeletonMatches(name, Utf8(name));
    hide EntrySelects;
    NotByItsSkeleton(name, c.typ);
    NotByItsSkeleton(name, c.deprecatedType);
    hide Matches, PathMatch;
  }

  lemma CrossedIsNotShadowed(c: Component)
    requires !SomeWide(c) && !AlikeNames(c)
    ensures var name := CrossedName(c);
      && !Bare(name) && (name == c.typ || name == c.deprecatedType)
      && (Bare(c.typ) ==> Ascii(c.typ) && !Shadows(Utf8(c.typ), Utf8(name)))
      && (c.deprecatedType != "" && Bare(c.deprecatedType) ==> Ascii(c.deprecatedType) && !Shadows(Utf8(c.deprecatedType), Utf8(name)))
  {
    if Uncrossed(c) {
      if !Ascii(c.typ) { WideIsNotShadowed(c.deprecatedType, c.typ); }
      if !Ascii(c.deprecatedType) { WideIsNotShadowed(c.typ, c.deprecatedType); }
    }
    hide Utf8, Shadows;
  }

  lemma WideIsNotShadowed(other: string, name: string)
    requires !Ascii(name) && Ascii(other)
    ensures !Shadows(Utf8(other), Utf8(name))
  {
    WideByte(name);
    AsciiIsItsBytes(other);
    var b :| b in Utf8(name) && b >= 0x80;
    var i :| 0 <= i < |Utf8(name)| && Utf8(name)[i] == b;
    assert Plain(b);
    if |Utf8(other)| == |Utf8(name)| { assert Utf8(other)[i] in Utf8(other); }
  }

  lemma NotByItsSkeleton(name: string, other: string)
    requires name != "" && (Bare(other) && other != "" ==> Ascii(other) && !Shadows(Utf8(other), Utf8(name)))
    ensures other != "" ==> !PathMatch(Utf8(Skeleton(name)), Utf8(other))
  {
    var pattern := Utf8(Skeleton(name));
    if other != "" && PathMatch(pattern, Utf8(other)) {
      PatternHoldsNoSlash(Skeleton(name));
      PathMatchTakesNoSlash(pattern, Utf8(other));
      SlashInBytes(other);
      MatchersAgree(Skeleton(name), other);
      SkeletonMatches(name, Utf8(other));
    }
  }

  /** The entry is one the two read differently. */
  lemma TellingEntryTells(c: Component)
    requires Pipeline(c.cls) && !AlikeNames(c)
    ensures EntryOk(TellingEntry(c)) && (EntrySelects(TellingEntry(c).Render(), c) <==> !TellingEntry(c).Selects(c))
  {
    if SomeWide(c) { WideNameParts(c); } else { CrossedNameParts(c); }
    hide EntrySelects, TellingEntry, AlikeNames, SomeWide;
  }

  /** The two evaluators read every entry alike exactly when every character of
      the component's names is one byte and nothing crosses a slash. */
  lemma EntriesAgreeExactly(c: Component)
    requires Pipeline(c.cls)
    ensures (forall e :: EntryOk(e) ==> (EntrySelects(e.Render(), c) <==> e.Selects(c))) <==> AlikeNames(c)
  {
    hide EntryOk, EntrySelects, AlikeNames, TellingEntry;
    if AlikeNames(c) {
      forall e | EntryOk(e) ensures EntrySelects(e.Render(), c) <==> e.Selects(c) { EntriesAgree(e, c); }
    } else {
      TellingEntryTells(c);
    }
  }

  // ------------------------------------------------------------ the agreement

  lemma ListsAgree(entries: seq<Entry>, c: Component)
    requires AlikeNames(c) && forall e :: e in entries ==> EntryOk(e)
    ensures SelectsAnyDoc(Rendered(entries), c) <==> SelectsAny(entries, c)
  {
    forall i | 0 <= i < |entries| ensures EntrySelects(Rendered(entries)[i], c) <==> entries[i].Selects(c) {
      assert entries[i] in entries;
      EntriesAgree(entries[i], c);
    }
    hide EntrySelects;
    if e :| e in entries && e.Selects(c) {
      var i :| 0 <= i < |entries| && entries[i] == e;
      assert Rendered(entries)[i] in Rendered(entries);
    }
    if SelectsAnyDoc(Rendered(entries), c) {
      var s :| s in Rendered(entries) && EntrySelects(s, c);
      var i :| 0 <= i < |entries| && Rendered(entries)[i] == s;
      assert entries[i] in entries;
    }
  }

  lemma {:induction false} ListsByTeamMeaning(docs: seq<AllowListDoc>, team: string)
    ensures team in ListsByTeam(docs) <==> exists d :: d in docs && d.team == team
    ensures team in ListsByTeam(docs) ==> exists d :: d in docs && d.team == team && d.allow == ListsByTeam(docs)[team]
  {
    if docs != [] {
      var n := |docs| - 1;
      assert docs == docs[..n] + [docs[n]];
      ListsByTeamMeaning(docs[..n], team);
    }
  }

  lemma ProjectedLists(b: Bundle, p: Policy, root: string, team: string)
    requires WellFormed(p.tree) && Consistent(p.tree) && root in p.tree.teams && Projects(b, p, root)
    ensures team in ListsByTeam(b.allowLists) <==> team in p.lists
    ensures team in p.lists ==> ListsByTeam(b.allowLists)[team] == Rendered(p.lists[team].allow)
  {
    ListsByTeamMeaning(b.allowLists, team);
    if team in p.lists {
      var d := AllowListDoc(team, p.lists[team].owner, Rendered(p.lists[team].allow));
      assert d in b.allowLists;
    }
  }

  lemma DocOrder()
    ensures WeakOrder(DocById)
    ensures forall g: GrantDoc, h: GrantDoc :: g.id != h.id ==> DocById(g, h) || DocById(h, g)
  {
    StringOrder();
  }

  lemma ProjectedGrants(b: Bundle, p: Policy, root: string)
    requires WellFormed(p.tree) && Consistent(p.tree) && root in p.tree.teams && Projects(b, p, root)
    ensures Increasing(DocById, Sort(DocById, b.grants))
    ensures forall d :: d in Sort(DocById, b.grants) <==> d.id in p.grants && d == DocOf(p.grants[d.id])
  {
    DocOrder();
    SortMembers(DocById, b.grants);
    forall x, y | x in b.grants && y in b.grants && x != y ensures DocById(x, y) || DocById(y, x) { }
    SortDistinct(DocById, b.grants);
  }

  lemma {:induction false} FirstDocIsLeast(grants: seq<GrantDoc>, team: string, c: Component, h: GrantDoc)
    requires Increasing(DocById, grants) && h in grants && h.team == team && SelectsAnyDoc(h.adds, c)
    ensures FirstDoc(grants, team, c).Some? && (FirstDoc(grants, team, c).value == h || Less(FirstDoc(grants, team, c).value.id, h.id))
  {
    hide SelectsAnyDoc;
    if grants[0].team == team && SelectsAnyDoc(grants[0].adds, c) {
      var i :| 0 <= i < |grants| && grants[i] == h;
      assert i > 0 ==> DocById(grants[0], grants[i]);
    } else {
      assert h in grants[1..];
      FirstDocIsLeast(grants[1..], team, c, h);
    }
  }

  /** Both evaluators pick the least grant by id, so they pick the same one. */
  lemma GrantsAgree(b: Bundle, p: Policy, root: string, team: string, c: Component)
    requires Loaded(p) && Consistent(p.tree) && root in p.tree.teams && Projects(b, p, root) && AlikeNames(c)
    ensures var g := FirstSelecting(p.GrantsAt(team), c);
      FirstDoc(Sort(DocById, b.grants), team, c) == if g.None? then None else Some(DocOf(g.value))
  {
    var docs := Sort(DocById, b.grants);
    var theirs, ours := FirstDoc(docs, team, c), FirstSelecting(p.GrantsAt(team), c);
    ProjectedGrants(b, p, root);
    forall id | id in p.grants ensures SelectsAnyDoc(DocOf(p.grants[id]).adds, c) <==> SelectsAny(p.grants[id].adds, c) {
      assert GrantStands(p, id);
      ListsAgree(p.grants[id].adds, c);
    }
    hide SelectsAnyDoc, SelectsAny, Project, GrantStands, WellFormed;
    if ours.Some? {
      var g := ours.value;
      assert g.id in p.grants && p.grants[g.id] == g && g.team == team;
      FirstDocIsLeast(docs, team, c, DocOf(g));
    }
    if theirs.Some? {
      var d := theirs.value;
      var h := p.grants[d.id];
      assert h in p.byTarget[team];
      assert GrantStands(p, d.id);
      GrantKeepsId(p, d.id);
      FirstIsLeast(p.GrantsAt(team), c, h);
      LessIrreflexive(d.id);
      if Less(ours.value.id, d.id) && Less(d.id, ours.value.id) { LessTransitive(d.id, ours.value.id, d.id); }
    }
  }

  lemma GrantKeepsId(p: Policy, id: string)
    requires TreeOk(p.tree) && id in p.grants && GrantStands(p, id)
    ensures p.grants[id].id == id
  {
  }

  function DocStandingOf(s: Standing): DocStanding {
    DocStanding(s.allowed, if s.via.None? then None else Some(DocOf(s.via.value)))
  }

  lemma {:induction false} WalksAgree(b: Bundle, p: Policy, root: string, chain: seq<string>, c: Component)
    requires Loaded(p) && Consistent(p.tree) && root in p.tree.teams && Projects(b, p, root) && AlikeNames(c)
    ensures DocStandingAt(ListsByTeam(b.allowLists), Sort(DocById, b.grants), chain, c) == DocStandingOf(StandingAt(p, chain, c))
  {
    if chain != [] {
      var n := |chain| - 1;
      var u := chain[n];
      WalksAgree(b, p, root, chain[..n], c);
      GrantsAgree(b, p, root, u, c);
      ProjectedLists(b, p, root, u);
      if u in p.lists { ListsAgree(p.lists[u].allow, c); }
      hide Projects, SelectsAnyDoc, SelectsAny;
    }
  }

  /** Both say no, or both say yes with one origin and one Grant. */
  ghost predicate SameAnswer(b: Bundle, p: Policy, team: string, c: Component)
    requires WellFormed(p.tree) && team in p.tree.teams
  {
    var e, m := EntryFor(p, Chain(p.tree, team), c), MembershipOf(b, team, c);
    && (m.allowed <==> e.Some?)
    && (e.Some? ==> m == Membership(true, e.value.origin, e.value.grant, e.value.grantedBy, e.value.grantedTo))
  }

  ghost predicate ProjectedAt(b: Bundle, p: Policy, root: string, team: string) {
    Loaded(p) && Consistent(p.tree) && SingleRoot(p.tree, root) && team in p.tree.teams && Projects(b, p, root)
  }

  /** The two evaluators give one answer: for a loaded policy over a
      single-root tree, the same decision, the same origin, the same Grant. */
  lemma EvaluatorsAgree(b: Bundle, p: Policy, root: string, team: string, c: Component)
    requires ProjectedAt(b, p, root, team) && AlikeNames(c)
    ensures SameAnswer(b, p, team, c)
  {
    var chain := Chain(p.tree, team);
    ChainsAgree(p.tree, root, team);
    WalksAgree(b, p, root, chain, c);
    ListsDeclaredAlike(b, p, root, chain);
    if StandingAt(p, chain, c).via.Some? { ViaStands(p, chain, c); }
    hide Loaded, Projects, Consistent, SingleRoot, AlikeNames, WellFormed, Chain;
    StandingsAnswerAlike(b, p, team, chain, c);
  }

  lemma ListsDeclaredAlike(b: Bundle, p: Policy, root: string, chain: seq<string>)
    requires WellFormed(p.tree) && Consistent(p.tree) && root in p.tree.teams && Projects(b, p, root)
    ensures (exists t :: t in chain && t in ListsByTeam(b.allowLists)) <==> AnyList(p, chain)
  {
    hide Projects, WellFormed, Consistent, ListsByTeam;
    forall t ensures t in ListsByTeam(b.allowLists) <==> t in p.lists { ProjectedLists(b, p, root, t); }
  }

  /** The walks and the origins agreeing, so do the answers. */
  lemma StandingsAnswerAlike(b: Bundle, p: Policy, team: string, chain: seq<string>, c: Component)
    requires b.owners == p.tree.owners && TeamChain(b.teams, team) == chain
    requires DocStandingAt(ListsByTeam(b.allowLists), Sort(DocById, b.grants), chain, c) == DocStandingOf(StandingAt(p, chain, c))
    requires (exists t :: t in chain && t in ListsByTeam(b.allowLists)) <==> AnyList(p, chain)
    requires var s := StandingAt(p, chain, c);
      s.via.Some? ==> s.via.value.owner in p.tree.owners && p.tree.owners[s.via.value.owner] != ""
    ensures var e, m := EntryFor(p, chain, c), MembershipOf(b, team, c);
      && (m.allowed <==> e.Some?)
      && (e.Some? ==> m == Membership(true, e.value.origin, e.value.grant, e.value.grantedBy, e.value.grantedTo))
  {
    hide StandingAt, DocStandingAt, ListsByTeam, TeamChain, AnyList, Sort;
  }

  lemma {:induction false} ViaStands(p: Policy, chain: seq<string>, c: Component)
    requires Loaded(p) && StandingAt(p, chain, c).via.Some?
    ensures var g := StandingAt(p, chain, c).via.value; g.owner in p.tree.owners && p.tree.owners[g.owner] != ""
  {
    if chain != [] {
      var n := |chain| - 1;
      if StandingAt(p, chain[..n], c).via.Some? { ViaStands(p, chain[..n], c); }
      var g := FirstSelecting(p.GrantsAt(chain[n]), c);
      if g.Some? { assert GrantStands(p, g.value.id); }
    }
  }

  /** A team outside the tree has no chain for the console to walk: it is
      judged as if nothing governed it, where the policy refuses to answer. */
  lemma UnknownTeamIsNotGoverned(b: Bundle, p: Policy, root: string, team: string, c: Component)
    requires WellFormed(p.tree) && Consistent(p.tree) && SingleRoot(p.tree, root) && b.teams == Project(p.tree, root)
    requires team !in p.tree.teams
    ensures MembershipOf(b, team, c) == Membership(true, OriginDefault, "", "", "")
  {
    ChainsAgree(p.tree, root, team);
  }
}
