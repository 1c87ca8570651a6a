/** The Allow-list policy: entries, the load that accepts a policy, and a team's
    effective palette with its provenance. */
module AllowList {
  import opened Base
  import opened TextBytes
  import opened Globs
  import opened TeamTree
  import opened CatalogueIndex

  // ------------------------------------------------------------------- entries

  datatype Entry = Entry(cls: string, pattern: string)
  {
    /** The authored form. */
    function Render(): string { cls + "/" + pattern }

    predicate Selects(c: Component) {
      && c.cls == cls
      && (PathMatch(Utf8(pattern), Utf8(c.typ)) || (c.deprecatedType != "" && PathMatch(Utf8(pattern), Utf8(c.deprecatedType))))
    }
  }

  /** Cuts at the first slash. */
  function CutAtSlash(s: string): (r: Option<(string, string)>)
    ensures r.Some? <==> '/' in s
    ensures r.Some? ==> s == r.value.0 + "/" + r.value.1 && '/' !in r.value.0
  {
    if s == "" then None
    else if s[0] == '/' then
      assert s == "" + "/" + s[1..];
      Some(("", s[1..]))
    else
      var rest := CutAtSlash(s[1..]);
      assert s == [s[0]] + s[1..];
      if rest.None? then None
      else
        assert [s[0]] + (rest.value.0 + "/" + rest.value.1) == ([s[0]] + rest.value.0) + "/" + rest.value.1;
        Some(([s[0]] + rest.value.0, rest.value.1))
  }

  lemma {:induction false} CutIsAtTheFirst(a: string, b: string)
    requires '/' !in a
    ensures CutAtSlash(a + "/" + b) == Some((a, b))
  {
    var s := a + "/" + b;
    if a == "" {
      assert s == "/" + b && s[1..] == b;
    } else {
      assert s[1..] == a[1..] + "/" + b && s[0] == a[0];
      CutIsAtTheFirst(a[1..], b);
      assert [a[0]] + a[1..] == a;
    }
  }

  predicate EntryOk(e: Entry) { Pipeline(e.cls) && PatternOk(e.pattern) }

  function ParseEntry(s: string): Option<Entry> {
    var cut := CutAtSlash(s);
    if cut.None? || cut.value.0 == "" || cut.value.1 == "" then None
    else if !Pipeline(cut.value.0) then None
    else if exists c :: c in cut.value.1 && Refused(c) then None
    else Some(Entry(cut.value.0, cut.value.1))
  }

  /** Parsing and rendering are inverse: what parses renders back as authored,
      and exactly the entries of the vocabulary survive the way back. */
  lemma EntryRoundTrip(s: string, e: Entry)
    ensures ParseEntry(s) == Some(e) ==> e.Render() == s && EntryOk(e)
    ensures ParseEntry(e.Render()) == Some(e) <==> EntryOk(e)
  {
    if EntryOk(e) {
      assert '/' !in e.cls;
      CutIsAtTheFirst(e.cls, e.pattern);
    }
  }

  /** An entry is a pipeline class, a slash and a pattern, which is not empty and
      holds no bracket, backslash or second slash. */
  lemma EntryReadsExactly(s: string, e: Entry)
    ensures ParseEntry(s) == Some(e) <==>
      && s == e.cls + "/" + e.pattern
      && e.cls in {"receiver", "processor", "exporter", "connector", "extension"}
      && e.pattern != "" && '[' !in e.pattern && ']' !in e.pattern && '\\' !in e.pattern && '/' !in e.pattern
  {
    if s == e.cls + "/" + e.pattern && e.cls in {"receiver", "processor", "exporter", "connector", "extension"} {
      assert '/' !in e.cls;
      CutIsAtTheFirst(e.cls, e.pattern);
    }
  }

  predicate SelectsAny(entries: seq<Entry>, c: Component) {
    exists e :: e in entries && e.Selects(c)
  }

  // -------------------------------------------------------------------- policy

  datatype AllowListDecl = AllowListDecl(team: string, owner: string, allow: seq<Entry>)

  datatype Grant = Grant(id: string, owner: string, team: string, adds: seq<Entry>)

  predicate ById(g: Grant, h: Grant) { Less(g.id, h.id) }

  datatype Policy = Policy(
    lists: map<string, AllowListDecl>,
    grants: map<string, Grant>,
    byTarget: map<string, seq<Grant>>,
    tree: Tree,
    cat: seq<Component>)
  {
    function GrantsAt(team: string): seq<Grant> {
      if team in byTarget then byTarget[team] else []
    }

    predicate ListAdmits(team: string, c: Component) {
      team in lists ==> SelectsAny(lists[team].allow, c)
    }
  }

  function FirstSelecting(gs: seq<Grant>, c: Component): (r: Option<Grant>)
    ensures r.Some? ==> r.value in gs && SelectsAny(r.value.adds, c)
    ensures r.None? ==> forall g :: g in gs ==> !SelectsAny(g.adds, c)
  {
    if gs == [] then None
    else if SelectsAny(gs[0].adds, c) then Some(gs[0])
    else FirstSelecting(gs[1..], c)
  }

  // ---------------------------------------------------------------------- load

  datatype ListDoc = ListDoc(team: string, owner: string, allow: seq<string>)

  datatype GrantDoc = GrantDoc(id: string, owner: string, team: string, adds: seq<string>)

  datatype Problem =
    | HoldsNone | NoTeam(team: string) | NoOwner(owner: string) | NoEntries | NoAuthority(id: string)
    | NoId | Duplicate(id: string) | BadEntry(entry: string)

  ghost predicate TreeOk(t: Tree) {
    WellFormed(t) && "" !in t.owners && forall o :: o in t.owners ==> t.owners[o] in t.teams
  }

  predicate InUseBy(cat: seq<Component>, s: string) {
    ParseEntry(s).Some? && exists c :: c in cat && ParseEntry(s).value.Selects(c)
  }

  /** Every entry parses and selects something, and none is listed twice. */
  ghost predicate EntriesOk(raw: seq<string>, cat: seq<Component>) {
    Distinct(raw) && forall s :: s in raw ==> InUseBy(cat, s)
  }

  predicate PartyOk(team: string, owner: string, t: Tree) { team in t.teams && owner in t.owners }

  ghost predicate ListDocOk(d: ListDoc, t: Tree, cat: seq<Component>) {
    PartyOk(d.team, d.owner, t) && d.allow != [] && EntriesOk(d.allow, cat)
  }

  /** A Grant is authored from strictly above its target. */
  ghost predicate GrantDocOk(d: GrantDoc, t: Tree, cat: seq<Component>)
    requires TreeOk(t)
  {
    && d.id != "" && PartyOk(d.team, d.owner, t) && ProperAncestor(t, t.owners[d.owner], d.team)
    && d.adds != [] && EntriesOk(d.adds, cat)
  }

  ghost predicate ListsOk(docs: seq<ListDoc>, t: Tree, cat: seq<Component>) {
    (forall d :: d in docs ==> ListDocOk(d, t, cat)) && forall i, j :: 0 <= i < j < |docs| ==> docs[i].team != docs[j].team
  }

  ghost predicate GrantsOk(docs: seq<GrantDoc>, t: Tree, cat: seq<Component>)
    requires TreeOk(t)
  {
    (forall d :: d in docs ==> GrantDocOk(d, t, cat)) && forall i, j :: 0 <= i < j < |docs| ==> docs[i].id != docs[j].id
  }

  function Parsed(raw: seq<string>): (entries: seq<Entry>)
    requires forall s :: s in raw ==> ParseEntry(s).Some?
    ensures |entries| == |raw| && forall i :: 0 <= i < |raw| ==> entries[i] == ParseEntry(raw[i]).value
  {
    seq(|raw|, i requires 0 <= i < |raw| => ParseEntry(raw[i]).value)
  }

  method ParseEntries(raw: seq<string>, cat: seq<Component>) returns (entries: seq<Entry>, problems: seq<Problem>)
    ensures problems == [] <==> EntriesOk(raw, cat)
    ensures problems == [] ==> entries == Parsed(raw)
  {
    hide Entry.Selects, ParseEntry;
    entries, problems := [], [];
    var seen: set<string> := {};
    for i := 0 to |raw|
      invariant forall s :: s in seen <==> s in raw[..i]
      invariant problems == [] <==> EntriesOk(raw[..i], cat)
      invariant problems == [] ==> entries == Parsed(raw[..i])
    {
      var s := raw[i];
      assert raw[..i + 1] == raw[..i] + [s];
      assert EntriesOk(raw[..i + 1], cat) <==> EntriesOk(raw[..i], cat) && s !in raw[..i] && InUseBy(cat, s);
      if s in seen {
        problems := problems + [Duplicate(s)];
        continue;
      }
      seen := seen + {s};
      var e := ParseEntry(s);
      if e.None? || !exists c :: c in cat && e.value.Selects(c) {
        problems := problems + [BadEntry(s)];
        continue;
      }
      entries := entries + [e.value];
    }
    assert raw[..|raw|] == raw;
  }

  /** The lists a load leaves: one per declared team, holding what was authored. */
  ghost predicate ListsHold(lists: map<string, AllowListDecl>, docs: seq<ListDoc>) {
    && (forall t :: t in lists <==> exists d :: d in docs && d.team == t)
    && (forall d :: d in docs ==> d.team in lists && ListIs(lists[d.team], d))
  }

  ghost predicate ListIs(l: AllowListDecl, d: ListDoc) {
    && l.team == d.team && l.owner == d.owner
    && (forall s :: s in d.allow ==> ParseEntry(s).Some?) && l.allow == Parsed(d.allow)
  }

  ghost predicate GrantIs(g: Grant, d: GrantDoc) {
    && g.id == d.id && g.owner == d.owner && g.team == d.team
    && (forall s :: s in d.adds ==> ParseEntry(s).Some?) && g.adds == Parsed(d.adds)
  }

  ghost predicate GrantsHold(grants: map<string, Grant>, docs: seq<GrantDoc>) {
    && (forall id :: id in grants <==> exists d :: d in docs && d.id == id)
    && (forall d :: d in docs ==> d.id in grants && GrantIs(grants[d.id], d))
  }

  /** The per-target table: each target's grants, every one of them, in id
      order. */
  ghost predicate Targeted(byTarget: map<string, seq<Grant>>, grants: map<string, Grant>) {
    && (forall u :: u in byTarget ==> Increasing(ById, byTarget[u]))
    && (forall u, g :: u in byTarget && g in byTarget[u] ==> g.team == u && g.id in grants && grants[g.id] == g)
    && (forall id :: id in grants ==> grants[id].team in byTarget && grants[id] in byTarget[grants[id].team])
  }

  method CheckList(d: ListDoc, t: Tree, cat: seq<Component>) returns (l: AllowListDecl, problems: seq<Problem>)
    ensures problems == [] <==> ListDocOk(d, t, cat)
    ensures problems == [] ==> ListIs(l, d)
    ensures l.team == d.team
  {
    problems := [];
    if d.team !in t.teams { problems := problems + [NoTeam(d.team)]; }
    if d.owner !in t.owners { problems := problems + [NoOwner(d.owner)]; }
    if d.allow == [] { problems := problems + [NoEntries]; }
    var entries, bad := ParseEntries(d.allow, cat);
    if bad == [] { EntriesParse(d.allow, cat); }
    problems := problems + bad;
    l := AllowListDecl(d.team, d.owner, entries);
  }

  ghost predicate TeamFree(docs: seq<ListDoc>, team: string) { forall e :: e in docs ==> e.team != team }

  ghost predicate IdFree(docs: seq<GrantDoc>, id: string) { forall e :: e in docs ==> e.id != id }

  method LoadLists(docs: seq<ListDoc>, t: Tree, cat: seq<Component>) returns (lists: map<string, AllowListDecl>, problems: seq<Problem>)
    requires TreeOk(t)
    ensures problems == [] <==> ListsOk(docs, t, cat)
    ensures problems == [] ==> ListsHold(lists, docs)
  {
    hide ListsOk, ListsHold, TreeOk;
    lists, problems := map[], [];
    NoLists(t, cat);
    for i := 0 to |docs|
      invariant problems == [] <==> ListsOk(docs[..i], t, cat)
      invariant problems == [] ==> ListsHold(lists, docs[..i])
    {
      assert docs[..i + 1] == docs[..i] + [docs[i]];
      lists, problems := AddList(lists, problems, docs[..i], docs[i], t, cat);
    }
    assert docs[..|docs|] == docs;
  }

  method AddList(lists: map<string, AllowListDecl>, problems: seq<Problem>, ghost docs: seq<ListDoc>, d: ListDoc, t: Tree, cat: seq<Component>)
    returns (lists': map<string, AllowListDecl>, problems': seq<Problem>)
    requires TreeOk(t)
    requires problems == [] <==> ListsOk(docs, t, cat)
    requires problems == [] ==> ListsHold(lists, docs)
    ensures problems' == [] <==> ListsOk(docs + [d], t, cat)
    ensures problems' == [] ==> ListsHold(lists', docs + [d])
  {
    NoListTeam(t, cat);
    hide ListDocOk, ListIs, ListsOk, ListsHold, TreeOk, TeamFree;
    OneMoreList(docs, d, t, cat);
    var l, bad := CheckList(d, t, cat);
    lists', problems' := lists, problems + bad;
    if problems == [] && bad == [] {
      ListHeldOrFree(lists, docs, d.team);
      if d.team !in lists { HoldOneMoreList(lists, docs, l, d); }
    }
    if d.team != "" {
      if d.team in lists {
        problems' := problems' + [Duplicate(d.team)];
      } else {
        lists' := lists[d.team := l];
      }
    }
  }

  lemma NoLists(t: Tree, cat: seq<Component>)
    ensures ListsOk([], t, cat) && ListsHold(map[], [])
  {
  }

  lemma NoListTeam(t: Tree, cat: seq<Component>)
    requires TreeOk(t)
    ensures forall d: ListDoc :: d.team == "" ==> !ListDocOk(d, t, cat)
  {
  }

  lemma ListHeldOrFree(lists: map<string, AllowListDecl>, docs: seq<ListDoc>, team: string)
    requires ListsHold(lists, docs)
    ensures team in lists <==> !TeamFree(docs, team)
  {
  }

  lemma HoldOneMoreList(lists: map<string, AllowListDecl>, docs: seq<ListDoc>, l: AllowListDecl, d: ListDoc)
    requires ListsHold(lists, docs) && ListIs(l, d) && d.team !in lists
    ensures ListsHold(lists[d.team := l], docs + [d])
  {
  }

  lemma EntriesParse(raw: seq<string>, cat: seq<Component>)
    requires EntriesOk(raw, cat)
    ensures forall s :: s in raw ==> ParseEntry(s).Some?
  {
  }

  lemma OneMoreList(docs: seq<ListDoc>, d: ListDoc, t: Tree, cat: seq<Component>)
    ensures ListsOk(docs + [d], t, cat)
       <==> ListsOk(docs, t, cat) && ListDocOk(d, t, cat) && TeamFree(docs, d.team)
  {
    hide ListDocOk;
    var all := docs + [d];
    if ListsOk(all, t, cat) {
      assert d in all;
      forall e | e in docs ensures e in all && e.team != d.team {
        var i :| 0 <= i < |docs| && docs[i] == e;
        assert all[i] == e && all[|docs|] == d;
      }
      assert forall i, j :: 0 <= i < j < |docs| ==> all[i] == docs[i] && all[j] == docs[j];
    }
  }

  lemma OneMoreGrant(docs: seq<GrantDoc>, d: GrantDoc, t: Tree, cat: seq<Component>)
    requires TreeOk(t)
    ensures GrantsOk(docs + [d], t, cat)
       <==> GrantsOk(docs, t, cat) && GrantDocOk(d, t, cat) && IdFree(docs, d.id)
  {
    hide GrantDocOk, TreeOk;
    var all := docs + [d];
    if GrantsOk(all, t, cat) {
      assert d in all;
      forall e | e in docs ensures e in all && e.id != d.id {
        var i :| 0 <= i < |docs| && docs[i] == e;
        assert all[i] == e && all[|docs|] == d;
      }
      assert forall i, j :: 0 <= i < j < |docs| ==> all[i] == docs[i] && all[j] == docs[j];
    }
  }

  /** One Grant's own problems: none exactly when it may stand. */
  method CheckGrant(d: GrantDoc, t: Tree, cat: seq<Component>) returns (g: Grant, problems: seq<Problem>)
    requires TreeOk(t)
    ensures problems == [] <==> GrantDocOk(d, t, cat)
    ensures problems == [] ==> GrantIs(g, d)
    ensures g.id == d.id && g.team == d.team
  {
    problems := [];
    if d.id == "" { problems := problems + [NoId]; }
    if d.team !in t.teams { problems := problems + [NoTeam(d.team)]; }
    if d.owner !in t.owners { problems := problems + [NoOwner(d.owner)]; }
    if d.owner in t.owners && d.team in t.teams {
      var above := IsProperAncestor(t, t.owners[d.owner], d.team);
      if !above { problems := problems + [NoAuthority(d.id)]; }
    }
    if d.adds == [] { problems := problems + [NoEntries]; }
    var entries, bad := ParseEntries(d.adds, cat);
    if bad == [] { EntriesParse(d.adds, cat); }
    problems := problems + bad;
    g := Grant(d.id, d.owner, d.team, entries);
  }

  /** The unsorted table while the documents are read. */
  ghost predicate Filed(byTarget: map<string, seq<Grant>>, grants: map<string, Grant>) {
    && (forall u :: u in byTarget ==> Distinct(byTarget[u]))
    && (forall u, g :: u in byTarget && g in byTarget[u] ==> g.team == u && g.id in grants && grants[g.id] == g)
    && (forall id :: id in grants ==> grants[id].id == id && grants[id].team in byTarget && grants[id] in byTarget[grants[id].team])
  }

  method LoadGrants(docs: seq<GrantDoc>, t: Tree, cat: seq<Component>)
    returns (grants: map<string, Grant>, byTarget: map<string, seq<Grant>>, problems: seq<Problem>)
    requires TreeOk(t)
    ensures problems == [] <==> GrantsOk(docs, t, cat)
    ensures problems == [] ==> GrantsHold(grants, docs) && Filed(byTarget, grants)
  {
    hide GrantsOk, GrantsHold, TreeOk, Filed;
    grants, byTarget, problems := map[], map[], [];
    NoGrants(t, cat);
    for i := 0 to |docs|
      invariant problems == [] <==> GrantsOk(docs[..i], t, cat)
      invariant problems == [] ==> GrantsHold(grants, docs[..i])
      invariant Filed(byTarget, grants)
    {
      assert docs[..i + 1] == docs[..i] + [docs[i]];
      grants, byTarget, problems := AddGrant(grants, byTarget, problems, docs[..i], docs[i], t, cat);
    }
    assert docs[..|docs|] == docs;
  }

  method AddGrant(grants: map<string, Grant>, byTarget: map<string, seq<Grant>>, problems: seq<Problem>,
                  ghost docs: seq<GrantDoc>, d: GrantDoc, t: Tree, cat: seq<Component>)
    returns (grants': map<string, Grant>, byTarget': map<string, seq<Grant>>, problems': seq<Problem>)
    requires TreeOk(t) && Filed(byTarget, grants)
    requires problems == [] <==> GrantsOk(docs, t, cat)
    requires problems == [] ==> GrantsHold(grants, docs)
    ensures problems' == [] <==> GrantsOk(docs + [d], t, cat)
    ensures problems' == [] ==> GrantsHold(grants', docs + [d])
    ensures Filed(byTarget', grants')
  {
    NoGrantId(t, cat);
    hide GrantDocOk, GrantIs, GrantsOk, GrantsHold, TreeOk, IdFree, Filed;
    OneMoreGrant(docs, d, t, cat);
    var g, bad := CheckGrant(d, t, cat);
    grants', byTarget', problems' := grants, byTarget, problems + bad;
    if problems == [] && bad == [] {
      GrantHeldOrFree(grants, docs, d.id);
      if d.id !in grants { HoldOneMore(grants, docs, g, d); }
    }
    if d.id != "" {
      if d.id in grants {
        problems' := problems' + [Duplicate(d.id)];
      } else {
        FileGrant(byTarget, grants, g);
        grants' := grants[g.id := g];
        byTarget' := byTarget[g.team := (if g.team in byTarget then byTarget[g.team] else []) + [g]];
      }
    }
  }

  lemma NoGrants(t: Tree, cat: seq<Component>)
    requires TreeOk(t)
    ensures GrantsOk([], t, cat) && GrantsHold(map[], []) && Filed(map[], map[])
  {
  }

  lemma NoGrantId(t: Tree, cat: seq<Component>)
    requires TreeOk(t)
    ensures forall d: GrantDoc :: d.id == "" ==> !GrantDocOk(d, t, cat)
  {
  }

  lemma GrantHeldOrFree(grants: map<string, Grant>, docs: seq<GrantDoc>, id: string)
    requires GrantsHold(grants, docs)
    ensures id in grants <==> !IdFree(docs, id)
  {
  }

  lemma HoldOneMore(grants: map<string, Grant>, docs: seq<GrantDoc>, g: Grant, d: GrantDoc)
    requires GrantsHold(grants, docs) && GrantIs(g, d) && g.id == d.id && g.id !in grants
    ensures GrantsHold(grants[g.id := g], docs + [d])
  {
  }

  lemma FileGrant(byTarget: map<string, seq<Grant>>, grants: map<string, Grant>, g: Grant)
    requires Filed(byTarget, grants) && g.id !in grants
    ensures Filed(byTarget[g.team := (if g.team in byTarget then byTarget[g.team] else []) + [g]], grants[g.id := g])
  {
  }

  lemma ByIdOrder()
    ensures WeakOrder(ById)
    ensures forall g: Grant, h: Grant :: g.id != h.id ==> ById(g, h) || ById(h, g)
  {
    StringOrder();
  }

  /** Sorts every target's grants in place. */
  method SortTargets(byTarget: map<string, seq<Grant>>, grants: map<string, Grant>) returns (sorted: map<string, seq<Grant>>)
    requires Filed(byTarget, grants)
    ensures Targeted(sorted, grants)
  {
    sorted := map u | u in byTarget :: Sort(ById, byTarget[u]);
    SortedIsTargeted(byTarget, sorted, grants);
  }

  lemma SortedIsTargeted(byTarget: map<string, seq<Grant>>, sorted: map<string, seq<Grant>>, grants: map<string, Grant>)
    requires Filed(byTarget, grants)
    requires sorted.Keys == byTarget.Keys && forall u :: u in byTarget ==> sorted[u] == Sort(ById, byTarget[u])
    ensures Targeted(sorted, grants)
  {
    hide Sort, ById, Increasing, Distinct;
    forall u | u in byTarget ensures Increasing(ById, sorted[u]) { SortTarget(byTarget[u], grants); }
    forall u, g | u in byTarget ensures g in sorted[u] <==> g in byTarget[u] { SortTarget(byTarget[u], grants); }
  }

  lemma SortTarget(gs: seq<Grant>, grants: map<string, Grant>)
    requires Distinct(gs) && forall g :: g in gs ==> g.id in grants && grants[g.id] == g
    ensures Increasing(ById, Sort(ById, gs))
    ensures forall g :: g in Sort(ById, gs) <==> g in gs
  {
    ByIdOrder();
    hide ById;
    forall x, y | x in gs && y in gs && x != y ensures ById(x, y) || ById(y, x) {
      assert grants[x.id] == x && grants[y.id] == y;
    }
    SortDistinct(ById, gs);
    SortMembers(ById, gs);
  }

  ghost predicate Accepts(lists: Option<seq<ListDoc>>, grants: Option<seq<GrantDoc>>, t: Tree, cat: seq<Component>)
    requires TreeOk(t)
  {
    && (lists.Some? ==> lists.value != [] && ListsOk(lists.value, t, cat))
    && (grants.Some? ==> grants.value != [] && GrantsOk(grants.value, t, cat))
  }

  function DocsOf<T>(docs: Option<seq<T>>): seq<T> { if docs.Some? then docs.value else [] }

  /** What a policy that loaded is, whatever files it came from. */
  ghost predicate Loaded(p: Policy) {
    && TreeOk(p.tree)
    && Targeted(p.byTarget, p.grants)
    && (forall u :: u in p.lists ==> ListStands(p, u))
    && (forall id :: id in p.grants ==> GrantStands(p, id))
  }

  ghost predicate ListStands(p: Policy, u: string)
    requires u in p.lists
  {
    && u in p.tree.teams && p.lists[u].team == u && p.lists[u].allow != []
    && forall e :: e in p.lists[u].allow ==> EntryOk(e)
  }

  ghost predicate GrantStands(p: Policy, id: string)
    requires TreeOk(p.tree) && id in p.grants
  {
    var g := p.grants[id];
    && g.id == id && g.team in p.tree.teams && g.owner in p.tree.owners
    && ProperAncestor(p.tree, p.tree.owners[g.owner], g.team)
    && forall e :: e in g.adds ==> EntryOk(e)
  }

  /** A file that is absent is None. The load accepts exactly what the rules
      admit, and what it builds is what was authored. */
  method Load(lists: Option<seq<ListDoc>>, grants: Option<seq<GrantDoc>>, t: Tree, cat: seq<Component>)
    returns (r: Result<Policy, seq<Problem>>)
    requires TreeOk(t)
    ensures r.Ok? <==> Accepts(lists, grants, t, cat)
    ensures r.Ok? ==>
      && r.value.tree == t && r.value.cat == cat && Loaded(r.value)
      && ListsHold(r.value.lists, DocsOf(lists)) && GrantsHold(r.value.grants, DocsOf(grants))
  {
    var problems: seq<Problem> := [];
    if lists.Some? && lists.value == [] { problems := problems + [HoldsNone]; }
    if grants.Some? && grants.value == [] { problems := problems + [HoldsNone]; }
    var ls, badLists := LoadLists(DocsOf(lists), t, cat);
    var gs, filed, badGrants := LoadGrants(DocsOf(grants), t, cat);
    problems := problems + badLists + badGrants;
    if problems != [] { return Err(problems); }
    var byTarget := SortTargets(filed, gs);
    var p := Policy(ls, gs, byTarget, t, cat);
    LoadedFromDocs(p, DocsOf(lists), DocsOf(grants));
    return Ok(p);
  }

  lemma LoadedFromDocs(p: Policy, lists: seq<ListDoc>, grants: seq<GrantDoc>)
    requires TreeOk(p.tree) && Targeted(p.byTarget, p.grants)
    requires ListsOk(lists, p.tree, p.cat) && GrantsOk(grants, p.tree, p.cat)
    requires ListsHold(p.lists, lists) && GrantsHold(p.grants, grants)
    ensures Loaded(p)
  {
    hide ListsOk, ListsHold, GrantsOk, GrantsHold, TreeOk, Targeted, GrantStands, EntryOk;
    forall u | u in p.lists ensures ListStands(p, u) { ListFromDocs(p, lists, u); }
    forall id | id in p.grants ensures GrantStands(p, id) { GrantFromDocs(p, grants, id); }
  }

  lemma ListFromDocs(p: Policy, docs: seq<ListDoc>, u: string)
    requires ListsOk(docs, p.tree, p.cat) && ListsHold(p.lists, docs) && u in p.lists
    ensures ListStands(p, u)
  {
    var d :| d in docs && d.team == u;
    ParsedAreOk(d.allow);
    hide EntryOk, ParseEntry, InUseBy, Distinct;
  }

  lemma GrantFromDocs(p: Policy, docs: seq<GrantDoc>, id: string)
    requires TreeOk(p.tree) && GrantsOk(docs, p.tree, p.cat) && GrantsHold(p.grants, docs) && id in p.grants
    ensures GrantStands(p, id)
  {
    var d :| d in docs && d.id == id;
    ParsedAreOk(d.adds);
    hide EntryOk, ParseEntry, InUseBy, Distinct, ProperAncestor;
  }

  lemma ParsedAreOk(raw: seq<string>)
    requires forall s :: s in raw ==> ParseEntry(s).Some?
    ensures forall e :: e in Parsed(raw) ==> EntryOk(e)
  {
  }
}
