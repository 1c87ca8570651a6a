/** The Catalogue: what makes one valid, the index it is looked up through, and
    that the index answers exactly as a scan would. */
module CatalogueIndex {
  import opened Base

  /** `deprecatedType` is "" when the component has no alias; `deprecation`
      holds the migration text of each deprecated signal's notice. */
  datatype Component = Component(
    cls: string, typ: string, deprecatedType: string, mod: string,
    stability: map<string, string>, deprecation: map<string, string>)

  datatype Source = Source(repository: string, ref: string)

  const FORMAT_VERSION := 1

  datatype CompKey = CompKey(cls: string, typ: string)

  predicate Pipeline(cls: string) {
    cls == "receiver" || cls == "processor" || cls == "exporter" || cls == "connector" || cls == "extension"
  }

  function KeyOf(c: Component): CompKey { CompKey(c.cls, c.typ) }

  function AliasOf(c: Component): CompKey { CompKey(c.cls, c.deprecatedType) }

  predicate ByKey(x: Component, y: Component) {
    Less(x.cls, y.cls) || (x.cls == y.cls && Less(x.typ, y.typ))
  }

  predicate Level(l: string) {
    l == "development" || l == "alpha" || l == "beta" || l == "stable" || l == "deprecated" || l == "unmaintained"
  }

  predicate SignalGraded(c: Component, signal: string)
    requires signal in c.stability
  {
    && signal != "" && Level(c.stability[signal])
    && (c.stability[signal] == "deprecated" ==> signal in c.deprecation)
  }

  predicate NoticeDue(c: Component, signal: string)
    requires signal in c.deprecation
  {
    signal in c.stability && c.stability[signal] == "deprecated" && c.deprecation[signal] != ""
  }

  /** Some signal is graded, every grade is a level, and the notices are those
      of the deprecated signals, each saying where to move. */
  predicate Graded(c: Component) {
    && c.stability != map[] && (forall signal :: signal in c.stability ==> SignalGraded(c, signal))
    && forall signal :: signal in c.deprecation ==> NoticeDue(c, signal)
  }

  /** The component-level rules. */
  predicate WellDeclared(c: Component) {
    Pipeline(c.cls) && c.typ != "" && c.mod != "" && c.deprecatedType != c.typ && Graded(c)
  }

  /** A (class, type) is one component, an alias is one component's, and no
      alias is another's type. */
  ghost predicate Unambiguous(cs: seq<Component>) {
    && (forall i, j :: 0 <= i < j < |cs| ==> KeyOf(cs[i]) != KeyOf(cs[j]))
    && (forall i, j :: 0 <= i < j < |cs| && cs[i].deprecatedType != "" ==> AliasOf(cs[i]) != AliasOf(cs[j]))
    && (forall i, j :: 0 <= i < |cs| && 0 <= j < |cs| && cs[i].deprecatedType != "" ==> AliasOf(cs[i]) != KeyOf(cs[j]))
  }

  ghost predicate ValidCatalogue(cs: seq<Component>) {
    cs != [] && (forall c :: c in cs ==> WellDeclared(c)) && Unambiguous(cs)
  }

  predicate Answers(c: Component, cls: string, typ: string) {
    c.cls == cls && (c.typ == typ || c.deprecatedType == typ)
  }

  /** The console's lookup: the first entry that answers. */
  function TypeEntry(cs: seq<Component>, cls: string, typ: string): (r: Option<Component>)
    ensures r.Some? ==> r.value in cs && Answers(r.value, cls, typ)
    ensures r.None? ==> forall c :: c in cs ==> !Answers(c, cls, typ)
  {
    if cs == [] then None
    else if Answers(cs[0], cls, typ) then Some(cs[0])
    else TypeEntry(cs[1..], cls, typ)
  }

  /** For a type that is named at all, at most one component answers. */
  lemma AtMostOneAnswers(cs: seq<Component>, cls: string, typ: string, c: Component, d: Component)
    requires ValidCatalogue(cs) && typ != ""
    requires c in cs && d in cs && Answers(c, cls, typ) && Answers(d, cls, typ)
    ensures c == d
  {
  }

  /** One of the five pipeline classes; a type and a module; an alias that is not
      its own type; some signal, each named and at one of the six levels; and a
      notice saying where to move for each deprecated one and for no other. */
  ghost predicate DeclaresItself(c: Component) {
    && c.cls in {"receiver", "processor", "exporter", "connector", "extension"}
    && c.typ != "" && c.mod != "" && c.deprecatedType != c.typ && c.stability != map[]
    && (forall signal :: signal in c.stability ==>
          && signal != "" && c.stability[signal] in {"development", "alpha", "beta", "stable", "deprecated", "unmaintained"}
          && (c.stability[signal] == "deprecated" ==> signal in c.deprecation))
    && (forall signal :: signal in c.deprecation ==>
          signal in c.stability && c.stability[signal] == "deprecated" && c.deprecation[signal] != "")
  }

  /** Valid: not empty, every component declares itself, and within a class no
      two share a type, no two an alias, and no alias is anyone's type. */
  lemma ValidCatalogueExactly(cs: seq<Component>)
    ensures ValidCatalogue(cs) <==>
      && cs != [] && (forall c :: c in cs ==> DeclaresItself(c))
      && (forall i, j :: 0 <= i < j < |cs| && cs[i].cls == cs[j].cls ==> cs[i].typ != cs[j].typ)
      && (forall i, j :: 0 <= i < j < |cs| && cs[i].cls == cs[j].cls && cs[i].deprecatedType != "" ==> cs[i].deprecatedType != cs[j].deprecatedType)
      && (forall i, j :: 0 <= i < |cs| && 0 <= j < |cs| && cs[i].cls == cs[j].cls && cs[i].deprecatedType != "" ==> cs[i].deprecatedType != cs[j].typ)
  {
    forall c ensures WellDeclared(c) <==> DeclaresItself(c) { DeclaredIs(c); }
    hide WellDeclared, DeclaresItself;
  }

  lemma DeclaredIs(c: Component)
    ensures WellDeclared(c) <==> DeclaresItself(c)
  {
  }

  datatype Problem =
    | UnsupportedFormat(version: int)
    | NoRepository
    | NoRef
    | NoComponents
    | NotAPipelineClass(c: Component)
    | NoType(c: Component)
    | NoModule(c: Component)
    | AliasIsItsType(c: Component)
    | NoStability(c: Component)
    | UnnamedSignal(c: Component)
    | UnknownLevel(c: Component, signal: string)
    | NoNotice(c: Component, signal: string)
    | UndueNotice(c: Component, signal: string)
    | NoMigration(c: Component, signal: string)
    | SharedKey(key: CompKey)
    | AliasIsAType(key: CompKey)
    | AliasTaken(key: CompKey)

  ghost predicate KeysSeen(cs: seq<Component>, n: nat, seen: set<CompKey>)
    requires n <= |cs|
  {
    forall k :: k in seen <==> exists i :: 0 <= i < n && KeyOf(cs[i]) == k
  }

  ghost predicate AliasesSeen(cs: seq<Component>, n: nat, seen: set<CompKey>)
    requires n <= |cs|
  {
    forall k :: k in seen <==> exists i :: 0 <= i < n && cs[i].deprecatedType != "" && AliasOf(cs[i]) == k
  }

  /** Collects everything wrong; nothing is wrong exactly with a valid one of
      the supported format that says where it came from. */
  method Validate(version: int, source: Source, cs: seq<Component>) returns (problems: seq<Problem>)
    ensures problems == [] <==>
      version == 1 && source.repository != "" && source.ref != "" && ValidCatalogue(cs)
  {
    hide WellDeclared;
    problems := [];
    if version != FORMAT_VERSION { problems := problems + [UnsupportedFormat(version)]; }
    if source.repository == "" { problems := problems + [NoRepository]; }
    if source.ref == "" { problems := problems + [NoRef]; }
    if cs == [] { problems := problems + [NoComponents]; }
    var keyProblems, seen := CheckKeys(cs);
    var aliasProblems := CheckAliases(cs, seen);
    problems := problems + keyProblems + aliasProblems;
  }

  /** Everything wrong with one component. */
  method CheckComponent(c: Component) returns (problems: seq<Problem>)
    ensures problems == [] <==> WellDeclared(c)
  {
    problems := [];
    if !Pipeline(c.cls) { problems := problems + [NotAPipelineClass(c)]; }
    if c.typ == "" { problems := problems + [NoType(c)]; }
    if c.mod == "" { problems := problems + [NoModule(c)]; }
    if c.deprecatedType == c.typ && c.typ != "" { problems := problems + [AliasIsItsType(c)]; }
    if c.stability == map[] { problems := problems + [NoStability(c)]; }
    var grades := CheckGrades(c);
    var notices := CheckNotices(c);
    problems := problems + grades + notices;
  }

  method CheckGrades(c: Component) returns (problems: seq<Problem>)
    ensures problems == [] <==> forall signal :: signal in c.stability ==> SignalGraded(c, signal)
  {
    problems := [];
    var todo := c.stability.Keys;
    while todo != {}
      invariant todo <= c.stability.Keys
      invariant problems == [] <==> forall signal :: signal in c.stability.Keys - todo ==> SignalGraded(c, signal)
      decreases |todo|
    {
      ghost var seen := c.stability.Keys - todo;
      var signal :| signal in todo;
      todo := todo - {signal};
      assert c.stability.Keys - todo == seen + {signal};
      if signal == "" { problems := problems + [UnnamedSignal(c)]; }
      if !Level(c.stability[signal]) { problems := problems + [UnknownLevel(c, signal)]; }
      if c.stability[signal] == "deprecated" && signal !in c.deprecation { problems := problems + [NoNotice(c, signal)]; }
    }
  }

  method CheckNotices(c: Component) returns (problems: seq<Problem>)
    ensures problems == [] <==> forall signal :: signal in c.deprecation ==> NoticeDue(c, signal)
  {
    problems := [];
    var todo := c.deprecation.Keys;
    while todo != {}
      invariant todo <= c.deprecation.Keys
      invariant problems == [] <==> forall signal :: signal in c.deprecation.Keys - todo ==> NoticeDue(c, signal)
      decreases |todo|
    {
      ghost var seen := c.deprecation.Keys - todo;
      var signal :| signal in todo;
      todo := todo - {signal};
      assert c.deprecation.Keys - todo == seen + {signal};
      if signal !in c.stability || c.stability[signal] != "deprecated" { problems := problems + [UndueNotice(c, signal)]; }
      if c.deprecation[signal] == "" { problems := problems + [NoMigration(c, signal)]; }
    }
  }

  method CheckKeys(cs: seq<Component>) returns (problems: seq<Problem>, seen: set<CompKey>)
    ensures problems == [] <==> (forall c :: c in cs ==> WellDeclared(c)) && forall i, j :: 0 <= i < j < |cs| ==> KeyOf(cs[i]) != KeyOf(cs[j])
    ensures KeysSeen(cs, |cs|, seen)
  {
    hide WellDeclared;
    problems, seen := [], {};
    for n := 0 to |cs|
      invariant KeysSeen(cs, n, seen)
      invariant problems == [] <==>
        (forall i :: 0 <= i < n ==> WellDeclared(cs[i])) && forall i, j :: 0 <= i < j < n ==> KeyOf(cs[i]) != KeyOf(cs[j])
    {
      var bad := CheckComponent(cs[n]);
      problems := problems + bad;
      if KeyOf(cs[n]) in seen {
        problems := problems + [SharedKey(KeyOf(cs[n]))];
      }
      seen := seen + {KeyOf(cs[n])};
    }
  }

  method CheckAliases(cs: seq<Component>, seen: set<CompKey>) returns (problems: seq<Problem>)
    requires KeysSeen(cs, |cs|, seen)
    ensures problems == [] <==>
      && (forall i, j :: 0 <= i < j < |cs| && cs[i].deprecatedType != "" ==> AliasOf(cs[i]) != AliasOf(cs[j]))
      && (forall i, j :: 0 <= i < |cs| && 0 <= j < |cs| && cs[i].deprecatedType != "" ==> AliasOf(cs[i]) != KeyOf(cs[j]))
  {
    problems := [];
    var aliased: set<CompKey> := {};
    for n := 0 to |cs|
      invariant AliasesSeen(cs, n, aliased)
      invariant problems == [] <==>
        && (forall i, j :: 0 <= i < j < n && cs[i].deprecatedType != "" ==> AliasOf(cs[i]) != AliasOf(cs[j]))
        && (forall i, j :: 0 <= i < n && 0 <= j < |cs| && cs[i].deprecatedType != "" ==> AliasOf(cs[i]) != KeyOf(cs[j]))
    {
      if cs[n].deprecatedType == "" { continue; }
      var a := AliasOf(cs[n]);
      if a in seen { problems := problems + [AliasIsAType(a)]; }
      if a in aliased {
        problems := problems + [AliasTaken(a)];
      }
      aliased := aliased + {a};
    }
  }

  lemma ByKeyOrder()
    ensures WeakOrder(ByKey)
    ensures forall x, y :: KeyOf(x) != KeyOf(y) ==> ByKey(x, y) || ByKey(y, x)
  {
    StringOrder();
  }

  /** The primary table: where each of the first `n` keys is, and no other. */
  ghost predicate KeysPlaced(cs: seq<Component>, n: nat, byKey: map<CompKey, nat>)
    requires n <= |cs|
  {
    && (forall k :: k in byKey ==> byKey[k] < n && KeyOf(cs[byKey[k]]) == k)
    && (forall i :: 0 <= i < n ==> KeyOf(cs[i]) in byKey)
  }

  /** The alias table: which of the first `n` keys each alias names. */
  ghost predicate AliasesPlaced(cs: seq<Component>, n: nat, alias: map<CompKey, CompKey>)
    requires n <= |cs|
  {
    && (forall a :: a in alias ==> exists i :: 0 <= i < n && cs[i].deprecatedType != "" && AliasOf(cs[i]) == a && KeyOf(cs[i]) == alias[a])
    && (forall i :: 0 <= i < n && cs[i].deprecatedType != "" ==> AliasOf(cs[i]) in alias)
  }

  method BuildTables(cs: seq<Component>) returns (byKey: map<CompKey, nat>, alias: map<CompKey, CompKey>)
    requires Unambiguous(cs)
    ensures KeysPlaced(cs, |cs|, byKey) && AliasesPlaced(cs, |cs|, alias)
  {
    byKey, alias := map[], map[];
    for i := 0 to |cs|
      invariant KeysPlaced(cs, i, byKey) && AliasesPlaced(cs, i, alias)
    {
      byKey := byKey[KeyOf(cs[i]) := i];
      if cs[i].deprecatedType != "" { alias := alias[AliasOf(cs[i]) := KeyOf(cs[i])]; }
    }
  }

  class Catalogue {
    var components: seq<Component>
    var byKey: map<CompKey, nat>
    var alias: map<CompKey, CompKey>

    ghost predicate Indexed()
      reads this
    {
      Increasing(ByKey, components) && KeysPlaced(components, |components|, byKey) && AliasesPlaced(components, |components|, alias)
    }

    constructor (cs: seq<Component>)
      ensures components == cs
    {
      components, byKey, alias := cs, map[], map[];
    }

    /** Sorts the components and rebuilds both tables. */
    method Index()
      requires ValidCatalogue(components)
      modifies this
      ensures Indexed() && ValidCatalogue(components)
      ensures multiset(components) == multiset(old(components))
    {
      SortKeepsValid(components);
      components := Sort(ByKey, components);
      byKey, alias := BuildTables(components);
    }

    /** By key first, then through the alias table. */
    function Lookup(cls: string, typ: string): Option<Component>
      requires Indexed()
      reads this
    {
      var k := CompKey(cls, typ);
      if k in byKey then Some(components[byKey[k]])
      else if k in alias then Some(components[byKey[alias[k]]])
      else None
    }

    /** The index answers as the scan does, exactly except that the scan takes
        a missing alias for the empty type. */
    lemma LookupIsTheScan(cls: string, typ: string)
      requires Indexed() && ValidCatalogue(components)
      ensures Lookup(cls, typ) == TypeEntry(components, cls, typ)
         <==> typ != "" || forall c :: c in components && c.cls == cls ==> c.deprecatedType != ""
    {
      var k := CompKey(cls, typ);
      var scan := TypeEntry(components, cls, typ);
      if k in byKey { assert components[byKey[k]] in components; }
      if k in alias { assert components[byKey[alias[k]]] in components; }
      if typ == "" {
        forall i | 0 <= i < |components| ensures KeyOf(components[i]) != k { assert components[i] in components; }
        assert Lookup(cls, typ).None?;
        if scan.None? {
          forall c | c in components && c.cls == cls ensures c.deprecatedType != "" { assert !Answers(c, cls, typ); }
        }
      } else if scan.Some? {
        var i :| 0 <= i < |components| && components[i] == scan.value;
        assert KeyOf(components[i]) in byKey;
        assert Lookup(cls, typ).Some?;
        AtMostOneAnswers(components, cls, typ, scan.value, Lookup(cls, typ).value);
      }
    }

    /** Asked for the empty type, the index finds nothing where the scan finds
        whatever has no alias. */
    lemma EmptyTypePartsThem(c: Component)
      requires Indexed() && ValidCatalogue(components) && c in components && c.deprecatedType == ""
      ensures Lookup(c.cls, "").None? && TypeEntry(components, c.cls, "").Some?
    {
      LookupIsTheScan(c.cls, "");
      assert Answers(c, c.cls, "");
      forall i | 0 <= i < |components| ensures components[i].typ != "" { assert components[i] in components; }
    }

    /** An alias and its canonical type are one component. */
    lemma AliasFindsTheComponent(c: Component)
      requires Indexed() && ValidCatalogue(components) && c in components
      ensures Lookup(c.cls, c.typ) == Some(c)
      ensures c.deprecatedType != "" ==> Lookup(c.cls, c.deprecatedType) == Some(c)
    {
    }
  }

  const OTLP := Component("receiver", "otlp", "", "example.com/otlp", map["logs" := "stable"], map[])

  /** One component without an alias, the empty type: two answers. */
  method OneComponentTwoAnswers() returns (index: Option<Component>, scan: Option<Component>)
    ensures ValidCatalogue([OTLP])
    ensures index == None && scan == Some(OTLP)
  {
    var catalogue := new Catalogue([OTLP]);
    assert "logs" in OTLP.stability;
    assert ValidCatalogue(catalogue.components);
    catalogue.Index();
    assert OTLP in multiset(catalogue.components);
    catalogue.EmptyTypePartsThem(OTLP);
    index, scan := catalogue.Lookup("receiver", ""), TypeEntry([OTLP], "receiver", "");
  }

  lemma SortKeepsValid(cs: seq<Component>)
    requires ValidCatalogue(cs)
    ensures ValidCatalogue(Sort(ByKey, cs)) && Increasing(ByKey, Sort(ByKey, cs))
  {
    SortOrdersKeys(cs);
    SortMembers(ByKey, cs);
    hide Sort, ByKey, WellDeclared, Unambiguous;
    OrderKeepsUnambiguous(cs, Sort(ByKey, cs));
  }

  lemma SortOrdersKeys(cs: seq<Component>)
    requires Unambiguous(cs)
    ensures Increasing(ByKey, Sort(ByKey, cs))
  {
    ByKeyOrder();
    assert Distinct(cs);
    forall x, y | x in cs && y in cs && x != y ensures ByKey(x, y) || ByKey(y, x) {
      var i :| 0 <= i < |cs| && cs[i] == x;
      var j :| 0 <= j < |cs| && cs[j] == y;
    }
    SortDistinct(ByKey, cs);
  }

  lemma OrderKeepsUnambiguous(cs: seq<Component>, out: seq<Component>)
    requires Unambiguous(cs) && Increasing(ByKey, out)
    requires forall c :: c in out <==> c in cs
    ensures Unambiguous(out)
  {
    forall i, j | 0 <= i < j < |out| ensures KeyOf(out[i]) != KeyOf(out[j]) {
      assert ByKey(out[i], out[j]);
      LessIrreflexive(out[i].cls);
      LessIrreflexive(out[i].typ);
    }
    hide ByKey;
    forall i, j | 0 <= i < |out| && 0 <= j < |out| && out[i].deprecatedType != ""
      ensures AliasOf(out[i]) != KeyOf(out[j])
      ensures i < j ==> AliasOf(out[i]) != AliasOf(out[j])
    {
      assert out[i] in cs && out[j] in cs;
      var p :| 0 <= p < |cs| && cs[p] == out[i];
      var q :| 0 <= q < |cs| && cs[q] == out[j];
      if i < j { assert p != q; }
    }
  }
}
